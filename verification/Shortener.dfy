/**
 * The shortening protocol. A request asks Redis whether its URL is known, draws an ID if not, and
 * stores the slug's URL, then the URL's slug. Requests interleave between these steps, and any of
 * them may be cut short.
 */
module Shortener {
  import opened Basics
  import B = Base62
  import G = IdGenerator
  import Bits

  datatype Config = Config(layout: G.Layout, digest: string -> string)

  function UrlKey(slug: string): string { "url:" + slug }

  function ReverseKey(hash: string): string { "reverse-url:" + hash }

  datatype Phase = Asking | Missing | Storing(slug: string) | Indexing(slug: string) | Answered(slug: string) | Failed

  datatype Request = Request(url: string, phase: Phase)

  datatype System = System(redis: map<string, string>, generator: G.State, requests: seq<Request>)

  const EMPTY := System(map[], G.INITIAL, [])

  /** `c` is used by the step that draws an ID. */
  datatype Event = Arrive(url: string) | Advance(t: nat, c: G.Inputs) | Abort(t: nat)

  function Redirect(redis: map<string, string>, slug: string): Option<string> {
    if UrlKey(slug) in redis then Some(redis[UrlKey(slug)]) else None
  }

  function Asked(cfg: Config, redis: map<string, string>, url: string): Phase {
    var k := ReverseKey(cfg.digest(url));
    if k in redis && redis[k] != "" then Answered(redis[k]) else Missing
  }

  function SetPhase(s: System, t: nat, p: Phase): System
    requires t < |s.requests|
  {
    s.(requests := s.requests[t := s.requests[t].(phase := p)])
  }

  /** An ID before the epoch cannot be encoded. */
  function Chosen(id: int): Phase { if id < 0 then Failed else Storing(B.Numeral(id)) }

  function AdvanceRequest(cfg: Config, s: System, t: nat, c: G.Inputs): System
    requires t < |s.requests|
  {
    var r := s.requests[t];
    match r.phase
    case Asking => SetPhase(s, t, Asked(cfg, s.redis, r.url))
    case Missing =>
      if !G.Fits(cfg.layout, s.generator, c) then s
      else
        var g := G.Next(cfg.layout, s.generator, c);
        SetPhase(s, t, Chosen(G.Id(cfg.layout, g, c.random))).(generator := g)
    case Storing(slug) => SetPhase(s, t, Indexing(slug)).(redis := s.redis[UrlKey(slug) := r.url])
    case Indexing(slug) => SetPhase(s, t, Answered(slug)).(redis := s.redis[ReverseKey(cfg.digest(r.url)) := slug])
    case _ => s
  }

  function Step(cfg: Config, s: System, e: Event): System {
    match e
    case Arrive(url) => s.(requests := s.requests + [Request(url, Asking)])
    case Advance(t, c) => if t < |s.requests| then AdvanceRequest(cfg, s, t, c) else s
    case Abort(t) =>
      if t < |s.requests| && !s.requests[t].phase.Answered? then SetPhase(s, t, Failed) else s
  }

  function Run(cfg: Config, s: System, es: seq<Event>): System {
    if es == [] then s else Step(cfg, Run(cfg, s, es[..|es| - 1]), es[|es| - 1])
  }

  // --- What every step keeps --------------------------------------------------------------------

  /** The slug encodes an ID that has been issued. */
  predicate Issued(cfg: Config, g: G.State, slug: string) {
    B.Value(slug).Ok? && B.Value(slug).value < G.Bound(cfg.layout, g)
  }

  predicate RequestOk(cfg: Config, g: G.State, redis: map<string, string>, r: Request) {
    match r.phase
    case Storing(slug) => slug != "" && Issued(cfg, g, slug) && UrlKey(slug) !in redis
    case Indexing(slug) => slug != "" && Redirect(redis, slug) == Some(r.url)
    case Answered(slug) => KnownAs(cfg, redis, slug, cfg.digest(r.url)) && Known(cfg, redis, r.url)
    case _ => true
  }

  /** The slug leads to a URL with this hash. */
  predicate KnownAs(cfg: Config, redis: map<string, string>, slug: string, hash: string) {
    UrlKey(slug) in redis && cfg.digest(redis[UrlKey(slug)]) == hash
  }

  predicate Known(cfg: Config, redis: map<string, string>, url: string) { ReverseKey(cfg.digest(url)) in redis }

  ghost predicate RedisOk(cfg: Config, g: G.State, redis: map<string, string>) {
    && (forall slug :: UrlKey(slug) in redis ==> Issued(cfg, g, slug))
    && (forall hash :: ReverseKey(hash) in redis ==>
         redis[ReverseKey(hash)] != "" && KnownAs(cfg, redis, redis[ReverseKey(hash)], hash))
  }

  predicate Different(p: Phase, q: Phase) { p.Storing? && q.Storing? ==> p.slug != q.slug }

  ghost predicate SystemOk(cfg: Config, s: System) {
    && s.generator.sequence < Bits.Pow2(cfg.layout.sequenceBits)
    && RedisOk(cfg, s.generator, s.redis)
    && (forall t :: 0 <= t < |s.requests| ==> RequestOk(cfg, s.generator, s.redis, s.requests[t]))
    && (forall t, u :: 0 <= t < u < |s.requests| ==> Different(s.requests[t].phase, s.requests[u].phase))
  }

  lemma KeysDiffer(slug: string, slug': string, hash: string, hash': string)
    ensures UrlKey(slug) != ReverseKey(hash)
    ensures UrlKey(slug) == UrlKey(slug') ==> slug == slug'
    ensures ReverseKey(hash) == ReverseKey(hash') ==> hash == hash'
  {
    assert UrlKey(slug)[0] == 'u' && ReverseKey(hash)[0] == 'r';
    assert UrlKey(slug)[4..] == slug && UrlKey(slug')[4..] == slug';
    assert ReverseKey(hash)[12..] == hash && ReverseKey(hash')[12..] == hash';
  }

  /** Only the phase of request `t` changes, to one that is in order. */
  lemma PhaseOk(cfg: Config, s: System, t: nat, p: Phase)
    requires SystemOk(cfg, s) && t < |s.requests| && !p.Storing?
    requires RequestOk(cfg, s.generator, s.redis, s.requests[t].(phase := p))
    ensures SystemOk(cfg, SetPhase(s, t, p))
  {
  }

  lemma DrawKeepsOk(cfg: Config, s: System, t: nat, c: G.Inputs)
    requires SystemOk(cfg, s) && t < |s.requests| && s.requests[t].phase.Missing?
    ensures SystemOk(cfg, AdvanceRequest(cfg, s, t, c))
  {
    if G.Fits(cfg.layout, s.generator, c) {
      G.NextIdWithin(cfg.layout, s.generator, c);
      var g := G.Next(cfg.layout, s.generator, c);
      var id := G.Id(cfg.layout, g, c.random);
      if id >= 0 { B.DecodeEncode(id); }
      DrawnOk(cfg, s, t, g, id);
    }
  }

  lemma DrawnOk(cfg: Config, s: System, t: nat, g: G.State, id: int)
    requires SystemOk(cfg, s) && t < |s.requests|
    requires g.sequence < Bits.Pow2(cfg.layout.sequenceBits)
    requires G.Bound(cfg.layout, s.generator) <= id < G.Bound(cfg.layout, g)
    requires id >= 0 ==> B.Value(B.Numeral(id)) == B.Ok(id)
    ensures SystemOk(cfg, SetPhase(s, t, Chosen(id)).(generator := g))
  {
    assert forall slug :: Issued(cfg, s.generator, slug) ==> Issued(cfg, g, slug);
    if id >= 0 {
      assert !Issued(cfg, s.generator, B.Numeral(id)) && Issued(cfg, g, B.Numeral(id));
    }
  }

  lemma StoreKeepsOk(cfg: Config, s: System, t: nat, slug: string)
    requires SystemOk(cfg, s) && t < |s.requests| && s.requests[t].phase == Storing(slug)
    ensures var s' := SetPhase(s, t, Indexing(slug)).(redis := s.redis[UrlKey(slug) := s.requests[t].url]);
            SystemOk(cfg, s')
  {
    var url := s.requests[t].url;
    var redis' := s.redis[UrlKey(slug) := url];
    assert RequestOk(cfg, s.generator, s.redis, s.requests[t]);
    forall slug' ensures UrlKey(slug') == UrlKey(slug) ==> slug' == slug { KeysDiffer(slug, slug', "", ""); }
    forall hash ensures ReverseKey(hash) != UrlKey(slug) { KeysDiffer(slug, slug, hash, hash); }
    forall slug', hash | KnownAs(cfg, s.redis, slug', hash) ensures KnownAs(cfg, redis', slug', hash) {}
    forall u | 0 <= u < |s.requests| && u != t ensures RequestOk(cfg, s.generator, redis', s.requests[u]) {
      assert RequestOk(cfg, s.generator, s.redis, s.requests[u]);
      assert Different(s.requests[u].phase, s.requests[t].phase) by {
        if u < t { assert Different(s.requests[u].phase, s.requests[t].phase); }
        else { assert Different(s.requests[t].phase, s.requests[u].phase); }
      }
    }
  }

  lemma IndexKeepsOk(cfg: Config, s: System, t: nat, slug: string)
    requires SystemOk(cfg, s) && t < |s.requests| && s.requests[t].phase == Indexing(slug)
    ensures var key := ReverseKey(cfg.digest(s.requests[t].url));
            SystemOk(cfg, SetPhase(s, t, Answered(slug)).(redis := s.redis[key := slug]))
  {
    var hash := cfg.digest(s.requests[t].url);
    var redis' := s.redis[ReverseKey(hash) := slug];
    assert RequestOk(cfg, s.generator, s.redis, s.requests[t]);
    forall hash' ensures ReverseKey(hash') == ReverseKey(hash) ==> hash' == hash { KeysDiffer("", "", hash, hash'); }
    forall slug' ensures UrlKey(slug') != ReverseKey(hash) { KeysDiffer(slug', slug', hash, hash); }
    forall slug', hash' ensures KnownAs(cfg, redis', slug', hash') == KnownAs(cfg, s.redis, slug', hash') {}
    forall u | 0 <= u < |s.requests| && u != t ensures RequestOk(cfg, s.generator, redis', s.requests[u]) {
      assert RequestOk(cfg, s.generator, s.redis, s.requests[u]);
    }
  }

  lemma AdvanceKeepsOk(cfg: Config, s: System, t: nat, c: G.Inputs)
    requires SystemOk(cfg, s) && t < |s.requests|
    ensures SystemOk(cfg, AdvanceRequest(cfg, s, t, c))
  {
    var r := s.requests[t];
    match r.phase
    case Asking => PhaseOk(cfg, s, t, Asked(cfg, s.redis, r.url));
    case Missing => DrawKeepsOk(cfg, s, t, c);
    case Storing(slug) => StoreKeepsOk(cfg, s, t, slug);
    case Indexing(slug) => IndexKeepsOk(cfg, s, t, slug);
    case _ =>
  }

  lemma StepKeepsOk(cfg: Config, s: System, e: Event)
    requires SystemOk(cfg, s)
    ensures SystemOk(cfg, Step(cfg, s, e))
  {
    match e
    case Arrive(url) =>
    case Advance(t, c) => if t < |s.requests| { AdvanceKeepsOk(cfg, s, t, c); }
    case Abort(t) => if t < |s.requests| && !s.requests[t].phase.Answered? { PhaseOk(cfg, s, t, Failed); }
  }

  lemma {:induction false} RunOk(cfg: Config, es: seq<Event>)
    ensures SystemOk(cfg, Run(cfg, EMPTY, es))
  {
    if es != [] {
      RunOk(cfg, es[..|es| - 1]);
      StepKeepsOk(cfg, Run(cfg, EMPTY, es[..|es| - 1]), es[|es| - 1]);
    }
  }

  // --- What slugs are ---------------------------------------------------------------------------

  /** The slug is the numeral of the ID that some step of the run drew. */
  ghost predicate Drawn(cfg: Config, es: seq<Event>, slug: string) {
    exists k: nat :: k < |es| && DrawnAt(cfg, es, k, slug)
  }

  ghost predicate DrawnAt(cfg: Config, es: seq<Event>, k: nat, slug: string)
    requires k < |es|
  {
    var s := Run(cfg, EMPTY, es[..k]);
    && es[k].Advance? && es[k].t < |s.requests| && s.requests[es[k].t].phase.Missing?
    && G.Fits(cfg.layout, s.generator, es[k].c)
    && var id := G.Id(cfg.layout, G.Next(cfg.layout, s.generator, es[k].c), es[k].c.random);
       id >= 0 && slug == B.Numeral(id)
  }

  function SlugOf(p: Phase): Option<string> {
    match p
    case Storing(slug) => Some(slug)
    case Indexing(slug) => Some(slug)
    case Answered(slug) => Some(slug)
    case _ => None
  }

  ghost predicate AllDrawn(cfg: Config, es: seq<Event>, s: System) {
    && (forall t :: 0 <= t < |s.requests| && SlugOf(s.requests[t].phase).Some? ==>
         Drawn(cfg, es, SlugOf(s.requests[t].phase).value))
    && (forall slug :: UrlKey(slug) in s.redis ==> Drawn(cfg, es, slug))
    && (forall hash :: ReverseKey(hash) in s.redis ==> Drawn(cfg, es, s.redis[ReverseKey(hash)]))
  }

  lemma DrawnStays(cfg: Config, es: seq<Event>, slug: string)
    requires es != [] && Drawn(cfg, es[..|es| - 1], slug)
    ensures Drawn(cfg, es, slug)
  {
    var k: nat :| k < |es| - 1 && DrawnAt(cfg, es[..|es| - 1], k, slug);
    assert es[..|es| - 1][..k] == es[..k];
    assert DrawnAt(cfg, es, k, slug);
  }

  lemma StepDrawn(cfg: Config, es: seq<Event>, s: System, e: Event)
    requires es != [] && e == es[|es| - 1] && s == Run(cfg, EMPTY, es[..|es| - 1])
    requires AllDrawn(cfg, es, s)
    ensures AllDrawn(cfg, es, Step(cfg, s, e))
  {
    if e.Advance? && e.t < |s.requests| {
      var r := s.requests[e.t];
      match r.phase
      case Missing =>
        if G.Fits(cfg.layout, s.generator, e.c) {
          var id := G.Id(cfg.layout, G.Next(cfg.layout, s.generator, e.c), e.c.random);
          if id >= 0 { assert DrawnAt(cfg, es, |es| - 1, B.Numeral(id)); }
        }
      case Storing(slug) =>
        assert SlugOf(r.phase) == Some(slug);
        forall slug' ensures UrlKey(slug') == UrlKey(slug) ==> slug' == slug { KeysDiffer(slug, slug', "", ""); }
        forall hash ensures ReverseKey(hash) != UrlKey(slug) { KeysDiffer(slug, slug, hash, hash); }
      case Indexing(slug) =>
        var hash := cfg.digest(r.url);
        assert SlugOf(r.phase) == Some(slug);
        forall hash' ensures ReverseKey(hash') == ReverseKey(hash) ==> hash' == hash {
          KeysDiffer("", "", hash, hash');
        }
        forall slug' ensures UrlKey(slug') != ReverseKey(hash) { KeysDiffer(slug', slug', hash, hash); }
      case _ =>
    }
  }

  /** Every slug that is stored or answered is the Base62 numeral of an ID that some request drew. */
  lemma {:induction false} SlugsAreDrawn(cfg: Config, es: seq<Event>)
    ensures AllDrawn(cfg, es, Run(cfg, EMPTY, es))
  {
    if es != [] {
      SlugsAreDrawn(cfg, es[..|es| - 1]);
      forall slug | Drawn(cfg, es[..|es| - 1], slug) ensures Drawn(cfg, es, slug) { DrawnStays(cfg, es, slug); }
      StepDrawn(cfg, es, Run(cfg, EMPTY, es[..|es| - 1]), es[|es| - 1]);
    }
  }

  // --- Answers ----------------------------------------------------------------------------------

  /** Whatever is stored under a slug stays there. */
  lemma StepKeepsForward(cfg: Config, s: System, e: Event, slug: string)
    requires SystemOk(cfg, s) && UrlKey(slug) in s.redis
    ensures Redirect(Step(cfg, s, e).redis, slug) == Redirect(s.redis, slug)
  {
    if e.Advance? && e.t < |s.requests| {
      var r := s.requests[e.t];
      assert RequestOk(cfg, s.generator, s.redis, r);
      if r.phase.Storing? {
        KeysDiffer(slug, r.phase.slug, "", "");
      } else if r.phase.Indexing? {
        KeysDiffer(slug, slug, cfg.digest(r.url), "");
      }
    }
  }

  lemma RunOneMore(cfg: Config, es: seq<Event>, e: Event)
    ensures Run(cfg, EMPTY, es + [e]) == Step(cfg, Run(cfg, EMPTY, es), e)
    ensures SystemOk(cfg, Run(cfg, EMPTY, es))
  {
    assert (es + [e])[..|es|] == es;
    RunOk(cfg, es);
  }

  /** No entry is ever overwritten with another URL, so a slug leads where it led for ever. */
  lemma {:induction false} ForwardForever(cfg: Config, es: seq<Event>, more: seq<Event>, slug: string)
    requires UrlKey(slug) in Run(cfg, EMPTY, es).redis
    ensures Redirect(Run(cfg, EMPTY, es + more).redis, slug) == Redirect(Run(cfg, EMPTY, es).redis, slug)
    decreases |more|
  {
    if more == [] {
      assert es + more == es;
    } else {
      RunOneMore(cfg, es, more[0]);
      StepKeepsForward(cfg, Run(cfg, EMPTY, es), more[0], slug);
      ForwardForever(cfg, es + [more[0]], more[1..], slug);
      assert es + [more[0]] + more[1..] == es + more;
    }
  }

  lemma {:induction false} RequestsStay(cfg: Config, s: System, more: seq<Event>, t: nat)
    requires t < |s.requests|
    ensures var s' := Run(cfg, s, more);
      && t < |s'.requests| && s'.requests[t].url == s.requests[t].url
      && (s.requests[t].phase.Answered? ==> s'.requests[t] == s.requests[t])
  {
    if more != [] { RequestsStay(cfg, s, more[..|more| - 1], t); }
  }

  /** A slug that was returned leads, now and after any further steps, to a URL with the same hash
      as the one it was returned for. */
  lemma AnswersLead(cfg: Config, es: seq<Event>, more: seq<Event>, t: nat)
    requires t < |Run(cfg, EMPTY, es).requests| && Run(cfg, EMPTY, es).requests[t].phase.Answered?
    ensures var r := Run(cfg, EMPTY, es).requests[t];
            KnownAs(cfg, Run(cfg, EMPTY, es + more).redis, r.phase.slug, cfg.digest(r.url))
  {
    RunOk(cfg, es);
    var s := Run(cfg, EMPTY, es);
    assert RequestOk(cfg, s.generator, s.redis, s.requests[t]);
    ForwardForever(cfg, es, more, s.requests[t].phase.slug);
  }

  /** Once a URL has an answer, a later request for it answers with a stored slug and draws no ID. */
  lemma AnsweredIsFound(cfg: Config, es: seq<Event>, t: nat, u: nat, c: G.Inputs)
    requires var s := Run(cfg, EMPTY, es);
      && t < |s.requests| && u < |s.requests| && s.requests[t].url == s.requests[u].url
      && s.requests[t].phase.Answered? && s.requests[u].phase == Asking
    ensures var s := Run(cfg, EMPTY, es); var s' := Step(cfg, s, Advance(u, c));
      s'.requests[u].phase.Answered? && s'.redis == s.redis && s'.generator == s.generator
  {
    RunOk(cfg, es);
    var s := Run(cfg, EMPTY, es);
    assert RequestOk(cfg, s.generator, s.redis, s.requests[t]);
  }

  // --- Main result ------------------------------------------------------------------------------

  predicate RightAfter(cfg: Config, es: seq<Event>, more: seq<Event>, t: nat) {
    var s := Run(cfg, EMPTY, es);
    t < |s.requests| && s.requests[t].phase.Answered? ==>
      Redirect(Run(cfg, EMPTY, es + more).redis, s.requests[t].phase.slug) == Some(s.requests[t].url)
  }

  /** In every run, every slug that was returned leads for ever to the URL it was returned for. */
  ghost predicate Right(cfg: Config) { forall es, more, t: nat :: RightAfter(cfg, es, more, t) }

  ghost predicate CollisionFree(digest: string -> string) {
    forall url, url' :: digest(url) == digest(url') ==> url == url'
  }

  /** One request from start to end, alone. */
  function Alone(t: nat, url: string, c: G.Inputs): seq<Event> {
    [Arrive(url), Advance(t, c), Advance(t, c), Advance(t, c), Advance(t, c)]
  }

  lemma RunAppend(cfg: Config, s: System, es: seq<Event>, e: Event)
    ensures Run(cfg, s, es + [e]) == Step(cfg, Run(cfg, s, es), e)
  {
    assert (es + [e])[..|es|] == es;
  }

  lemma RunAlone(cfg: Config, s: System, url: string, c: G.Inputs)
    ensures var e := Advance(|s.requests|, c);
      Run(cfg, s, Alone(|s.requests|, url, c))
      == Step(cfg, Step(cfg, Step(cfg, Step(cfg, Step(cfg, s, Arrive(url)), e), e), e), e)
  {
    var t, e := |s.requests|, Advance(|s.requests|, c);
    RunAppend(cfg, s, [], Arrive(url));
    RunAppend(cfg, s, [Arrive(url)], e);
    RunAppend(cfg, s, [Arrive(url), e], e);
    RunAppend(cfg, s, [Arrive(url), e, e], e);
    RunAppend(cfg, s, [Arrive(url), e, e, e], e);
    assert [] + [Arrive(url)] == [Arrive(url)] && [Arrive(url)] + [e] == [Arrive(url), e]
      && [Arrive(url), e] + [e] == [Arrive(url), e, e] && [Arrive(url), e, e] + [e] == [Arrive(url), e, e, e]
          && [Arrive(url), e, e, e] + [e] == Alone(t, url, c);
  }

  /** An instant after the epoch at which the generator can be called. */
  function Instant(cfg: Config): G.Inputs {
    G.Inputs(if cfg.layout.epoch >= 0 then cfg.layout.epoch else 0, 0, 0)
  }

  lemma FirstAlone(cfg: Config, url: string) returns (slug: string)
    ensures var s := Run(cfg, EMPTY, Alone(0, url, Instant(cfg)));
      && slug != "" && s.requests == [Request(url, Answered(slug))]
      && s.redis == map[UrlKey(slug) := url, ReverseKey(cfg.digest(url)) := slug]
  {
    var c := Instant(cfg);
    RunAlone(cfg, EMPTY, url, c);
    var g := G.Next(cfg.layout, G.INITIAL, c);
    var id := G.Id(cfg.layout, g, 0);
    assert G.Fits(cfg.layout, G.INITIAL, c) && g == G.State(c.now, 0);
    G.FitsIff(cfg.layout, c.now, 0, Bits.Low(0, cfg.layout.randomBits), 0);
    slug := B.Numeral(id);
    var s1 := Step(cfg, EMPTY, Arrive(url));
    var s2 := Step(cfg, s1, Advance(0, c));
    assert s2 == System(map[], G.INITIAL, [Request(url, Missing)]);
    var s3 := Step(cfg, s2, Advance(0, c));
    assert s3 == System(map[], g, [Request(url, Storing(slug))]);
    var s4 := Step(cfg, s3, Advance(0, c));
    assert s4 == System(map[UrlKey(slug) := url], g, [Request(url, Indexing(slug))]);
    KeysDiffer(slug, slug, cfg.digest(url), "");
  }

  /** With a collision, the second of two URLs is answered with the first one's slug. */
  lemma CollisionMisleads(cfg: Config, url: string, url': string)
    requires url != url' && cfg.digest(url) == cfg.digest(url')
    ensures !Right(cfg)
  {
    var es := Alone(0, url, Instant(cfg));
    var slug := FirstAlone(cfg, url);
    var s := Run(cfg, EMPTY, es);
    var all := es + [Arrive(url')] + [Advance(1, Instant(cfg))];
    RunAppend(cfg, EMPTY, es, Arrive(url'));
    RunAppend(cfg, EMPTY, es + [Arrive(url')], Advance(1, Instant(cfg)));
    assert all + [] == all;
    var s1 := Step(cfg, s, Arrive(url'));
    assert s1.requests == [Request(url, Answered(slug)), Request(url', Asking)];
    var s2 := Step(cfg, s1, Advance(1, Instant(cfg)));
    assert s2.requests[1] == Request(url', Answered(slug)) && s2.redis == s.redis;
    assert Run(cfg, EMPTY, all) == s2;
    KeysDiffer(slug, slug, cfg.digest(url), "");
    assert Redirect(s2.redis, slug) == Some(url);
    assert !RightAfter(cfg, all, [], 1);
  }

  /** Every slug ever returned redirects for ever to exactly the URL it was returned for, in every
      interleaving, if and only if no two URLs share a hash. */
  lemma RightIffCollisionFree(cfg: Config)
    ensures Right(cfg) <==> CollisionFree(cfg.digest)
  {
    if CollisionFree(cfg.digest) {
      forall es, more, t: nat ensures RightAfter(cfg, es, more, t) {
        if t < |Run(cfg, EMPTY, es).requests| && Run(cfg, EMPTY, es).requests[t].phase.Answered? {
          AnswersLead(cfg, es, more, t);
        }
      }
    } else {
      var url, url' :| cfg.digest(url) == cfg.digest(url') && url != url';
      CollisionMisleads(cfg, url, url');
    }
  }

  // --- The service ------------------------------------------------------------------------------

  datatype Response = Shortened(slug: string) | ServerError

  class Service {
    const cfg: Config
    const generator: G.SnowflakeGenerator
    var redis: map<string, string>

    constructor (cfg: Config, generator: G.SnowflakeGenerator)
      requires generator.layout == cfg.layout
      ensures this.cfg == cfg && this.generator == generator && redis == map[]
    {
      this.cfg, this.generator, redis := cfg, generator, map[];
    }

    /** Redis and the generator, with one request. */
    ghost function View(r: Request): System
      reads this, generator
    {
      System(redis, generator.View(), [r])
    }

    /** A request that nothing interrupts takes the steps of the protocol in order; `c` is what its
        draw of an ID got from outside. */
    method ShortenUrl(url: string, random: nat) returns (response: Response, ghost c: G.Inputs)
      requires generator.layout == cfg.layout && generator.clock.GoesOn()
      modifies this, generator, generator.clock
      ensures View(Request(url, if response.Shortened? then Answered(response.slug) else Failed))
           == Run(cfg, System(old(redis), old(generator.View()), []), Alone(0, url, c))
      ensures response.ServerError? ==> redis == old(redis)
    {
      ghost var s0 := System(redis, generator.View(), []);
      c := G.Inputs(0, 0, 0);
      var reverseKey := ReverseKey(cfg.digest(url));
      if reverseKey in redis && redis[reverseKey] != "" {
        RunAlone(cfg, s0, url, c);
        return Shortened(redis[reverseKey]), c;
      }
      var id;
      id, c := generator.GenerateId(random);
      RunAlone(cfg, s0, url, c);
      ghost var s2 := Step(cfg, Step(cfg, s0, Arrive(url)), Advance(0, c));
      assert s2 == System(s0.redis, s0.generator, [Request(url, Missing)]);
      ghost var s3 := Step(cfg, s2, Advance(0, c));
      assert s3 == View(Request(url, Chosen(id)));
      var slug := B.Encode(id);
      if slug.NegativeNumber? { return ServerError, c; }
      redis := redis[UrlKey(slug.value) := url];
      assert Step(cfg, s3, Advance(0, c)) == View(Request(url, Indexing(slug.value)));
      redis := redis[reverseKey := slug.value];
      return Shortened(slug.value), c;
    }

    method RedirectTo(slug: string) returns (destination: Option<string>)
      ensures destination == Redirect(redis, slug)
    {
      if UrlKey(slug) !in redis { return None; }
      return Some(redis[UrlKey(slug)]);
    }
  }
}
