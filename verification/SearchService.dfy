/** The autocomplete endpoint: a result cache in front of the trie, and the rebuild of the trie. */
module SearchService {
  import opened Decimals
  import opened Ranking
  import opened SearchTrie

  // --- Cache keys -------------------------------------------------------------------------------

  /** The parameters in the order of their names, joined by underscores. */
  function CacheKey(query: string, limit: int): string {
    "search:" + ("limit:" + Decimal(limit) + "_" + ("q:" + query))
  }

  lemma DecimalHasNoUnderscore(n: int)
    ensures forall i :: 0 <= i < |Decimal(n)| ==> Decimal(n)[i] != '_'
  {
  }

  /** Splitting at the first underscore is unambiguous. */
  lemma SplitUnique(a: string, b: string, c: string, d: string)
    requires a + "_" + b == c + "_" + d
    requires (forall i :: 0 <= i < |a| ==> a[i] != '_') && (forall i :: 0 <= i < |c| ==> c[i] != '_')
    ensures a == c && b == d
  {
    var s := a + "_" + b;
    assert s[|a|] == '_' && s[|c|] == '_';
    assert forall i :: 0 <= i < |a| ==> s[i] != '_';
    assert forall i :: 0 <= i < |c| ==> s[i] != '_';
    assert s[..|a|] == a && s[..|c|] == c;
    assert s[|a| + 1..] == b && s[|c| + 1..] == d;
  }

  lemma Cancel(h: string, a: string, b: string)
    requires h + a == h + b
    ensures a == b
  {
    assert (h + a)[|h|..] == a && (h + b)[|h|..] == b;
  }

  /** Different searches never share a cache key. */
  lemma CacheKeyInjective(q: string, l: int, q': string, l': int)
    requires CacheKey(q, l) == CacheKey(q', l')
    ensures q == q' && l == l'
  {
    Cancel("search:", "limit:" + Decimal(l) + "_" + ("q:" + q), "limit:" + Decimal(l') + "_" + ("q:" + q'));
    DecimalHasNoUnderscore(l);
    DecimalHasNoUnderscore(l');
    SplitUnique("limit:" + Decimal(l), "q:" + q, "limit:" + Decimal(l'), "q:" + q');
    Cancel("limit:", Decimal(l), Decimal(l'));
    DecimalInjective(l, l');
    Cancel("q:", q, q');
  }

  // --- Loading ----------------------------------------------------------------------------------

  /** The map after inserting the rows in order. */
  function Loaded(rows: seq<TermData>, lower: string -> string): (m: Entries)
    ensures KeyedBy(m, lower)
  {
    if rows == [] then map[]
    else
      var d := rows[|rows| - 1];
      Loaded(rows[..|rows| - 1], lower)[lower(d.term) := d]
  }

  predicate DistinctKeys(rows: seq<TermData>, lower: string -> string) {
    forall i, j :: 0 <= i < j < |rows| ==> lower(rows[i].term) != lower(rows[j].term)
  }

  lemma {:induction false} LoadedIs(rows: seq<TermData>, lower: string -> string, k: string)
    requires DistinctKeys(rows, lower)
    ensures k in Loaded(rows, lower) ==> Loaded(rows, lower)[k] in rows
    ensures forall d :: d in rows && lower(d.term) == k ==> k in Loaded(rows, lower) && Loaded(rows, lower)[k] == d
  {
    if rows != [] {
      LoadedIs(rows[..|rows| - 1], lower, k);
      assert rows == rows[..|rows| - 1] + [rows[|rows| - 1]];
    }
  }

  /** Whatever the keys, the last row of a key is the one that is kept. */
  lemma {:induction false} LastRowWins(rows: seq<TermData>, lower: string -> string, i: nat)
    requires i < |rows| && forall j :: i < j < |rows| ==> lower(rows[j].term) != lower(rows[i].term)
    ensures var m, k := Loaded(rows, lower), lower(rows[i].term); k in m && m[k] == rows[i]
  {
    if i < |rows| - 1 { LastRowWins(rows[..|rows| - 1], lower, i); }
  }

  /** The order of insertion does not matter as long as the keys are distinct. */
  lemma LoadOrderIrrelevant(rows: seq<TermData>, other: seq<TermData>, lower: string -> string)
    requires DistinctKeys(rows, lower) && DistinctKeys(other, lower) && forall d :: d in rows <==> d in other
    ensures Loaded(rows, lower) == Loaded(other, lower)
  {
    var m, n := Loaded(rows, lower), Loaded(other, lower);
    forall k ensures k in m <==> k in n ensures k in m ==> m[k] == n[k] {
      LoadedIs(rows, lower, k);
      LoadedIs(other, lower, k);
      assert k in m ==> lower(m[k].term) == k && m[k] in other;
      assert k in n ==> lower(n[k].term) == k && n[k] in rows;
    }
  }

  // --- The endpoint as a state machine ----------------------------------------------------------

  datatype State = State(entries: Entries, cache: map<string, seq<TermData>>)

  /** `inserted` rows reach the new trie before loading stops; `flushed` is whether the cache was
      then emptied, which is not tried unless loading reached the end. */
  datatype Event =
    | Search(query: string, limit: int)
    | Rebuild(rows: seq<TermData>, inserted: nat, flushed: bool)
    | ClearCache
    | Expire(key: string)

  /** The reply to a search: nothing for an empty query, the cached result if there is one. */
  ghost function Reply(s: State, lower: string -> string, cacheUp: bool, query: string, limit: int): seq<TermData>
    requires KeyedBy(s.entries, lower)
  {
    if query != "" && cacheUp && CacheKey(query, limit) in s.cache then s.cache[CacheKey(query, limit)]
    else Answer(s.entries, lower, query, limit)
  }

  ghost function Step(s: State, lower: string -> string, cacheUp: bool, e: Event): (s': State)
    requires KeyedBy(s.entries, lower)
    ensures KeyedBy(s'.entries, lower)
  {
    match e
    case Search(q, l) =>
      if q == "" || !cacheUp then s else s.(cache := s.cache[CacheKey(q, l) := Reply(s, lower, cacheUp, q, l)])
    case Rebuild(rows, inserted, flushed) =>
      if inserted >= |rows| then State(Loaded(rows, lower), if cacheUp && flushed then map[] else s.cache)
      else s.(entries := Loaded(rows[..inserted], lower))
    case ClearCache => if cacheUp then s.(cache := map[]) else s
    case Expire(key) => s.(cache := s.cache - {key})
  }

  /** Every cached result is what the trie would answer now. */
  ghost predicate Transparent(s: State, lower: string -> string)
    requires KeyedBy(s.entries, lower)
  {
    forall q, l {:trigger CacheKey(q, l)} :: q != "" && CacheKey(q, l) in s.cache ==>
      s.cache[CacheKey(q, l)] == Answer(s.entries, lower, q, l)
  }

  /** The rebuild loaded every row and emptied the cache. */
  predicate Clean(e: Event) {
    e.Rebuild? ==> e.inserted >= |e.rows| && e.flushed
  }

  lemma StepKeepsTransparent(s: State, lower: string -> string, cacheUp: bool, e: Event)
    requires KeyedBy(s.entries, lower) && Transparent(s, lower) && Clean(e) && (!cacheUp ==> s.cache == map[])
    ensures Transparent(Step(s, lower, cacheUp, e), lower) && (!cacheUp ==> Step(s, lower, cacheUp, e).cache == map[])
  {
    if e.Search? {
      var s' := Step(s, lower, cacheUp, e);
      forall q, l | q != "" && CacheKey(q, l) in s'.cache
        ensures s'.cache[CacheKey(q, l)] == Answer(s'.entries, lower, q, l)
      {
        if CacheKey(q, l) == CacheKey(e.query, e.limit) { CacheKeyInjective(q, l, e.query, e.limit); }
      }
    }
  }

  ghost function Run(s: State, lower: string -> string, cacheUp: bool, es: seq<Event>): (r: State)
    requires KeyedBy(s.entries, lower)
    ensures KeyedBy(r.entries, lower)
  {
    if es == [] then s else Step(Run(s, lower, cacheUp, es[..|es| - 1]), lower, cacheUp, es[|es| - 1])
  }

  lemma {:induction false} RunTransparent(s: State, lower: string -> string, cacheUp: bool, es: seq<Event>)
    requires KeyedBy(s.entries, lower) && s.cache == map[] && forall k :: 0 <= k < |es| ==> Clean(es[k])
    ensures Transparent(Run(s, lower, cacheUp, es), lower)
    ensures !cacheUp ==> Run(s, lower, cacheUp, es).cache == map[]
  {
    if es != [] {
      RunTransparent(s, lower, cacheUp, es[..|es| - 1]);
      StepKeepsTransparent(Run(s, lower, cacheUp, es[..|es| - 1]), lower, cacheUp, es[|es| - 1]);
    }
  }

  /** After any run of searches, clean rebuilds, clearings and expiries, a search answers what the
      current trie would. */
  lemma CacheTransparent(s: State, lower: string -> string, cacheUp: bool, es: seq<Event>, query: string, limit: int)
    requires KeyedBy(s.entries, lower) && s.cache == map[] && forall k :: 0 <= k < |es| ==> Clean(es[k])
    ensures var r := Run(s, lower, cacheUp, es);
            Reply(r, lower, cacheUp, query, limit) == Answer(r.entries, lower, query, limit)
  {
    RunTransparent(s, lower, cacheUp, es);
  }

  /** The event leaves what is cached under this key. */
  predicate Leaves(e: Event, key: string) {
    match e
    case Search(_, _) => true
    case Rebuild(rows, inserted, flushed) => inserted < |rows| || !flushed
    case ClearCache => false
    case Expire(k) => k != key
  }

  /** A search that was answered is answered the same way, whatever else is searched for or rebuilt,
      until its entry expires or the cache is emptied. */
  lemma {:induction false} AnsweredFromCache(s: State, lower: string -> string, es: seq<Event>, query: string,
      limit: int)
    requires KeyedBy(s.entries, lower) && query != ""
    requires forall k :: 0 <= k < |es| ==> Leaves(es[k], CacheKey(query, limit))
    ensures var s1 := Step(s, lower, true, Search(query, limit)); var r := Run(s1, lower, true, es);
      && CacheKey(query, limit) in r.cache
      && Reply(r, lower, true, query, limit) == Reply(s, lower, true, query, limit)
  {
    if es != [] {
      AnsweredFromCache(s, lower, es[..|es| - 1], query, limit);
    }
  }

  /** Every query finds the same entries in both. */
  ghost predicate SameMatches(m: Entries, n: Entries, lower: string -> string) {
    forall q: string :: q != "" ==> Matching(m, lower(q)) == Matching(n, lower(q))
  }

  lemma SameAnswersIff(m: Entries, n: Entries, lower: string -> string, q: string)
    requires KeyedBy(m, lower) && KeyedBy(n, lower) && q != ""
    ensures (forall l: int :: Answer(m, lower, q, l) == Answer(n, lower, q, l))
        <==> Matching(m, lower(q)) == Matching(n, lower(q))
  {
    if Matching(m, lower(q)) == Matching(n, lower(q)) {
      SomeListing(Matching(m, lower(q)));
      var s: seq<TermData> :| Lists(s, Matching(m, lower(q)));
      forall l: int ensures Answer(m, lower, q, l) == Answer(n, lower, q, l) {
        AnswerFromListing(m, lower, q, l, s);
        AnswerFromListing(n, lower, q, l, s);
      }
    } else {
      var l := |Matching(m, lower(q))| + |Matching(n, lower(q))|;
      AllAnswered(m, lower, q, l);
      AllAnswered(n, lower, q, l);
    }
  }

  /** The entries after a rebuild. */
  function Rebuilt(e: Event, lower: string -> string): (m: Entries)
    requires e.Rebuild?
    ensures KeyedBy(m, lower)
  {
    Loaded(if e.inserted >= |e.rows| then e.rows else e.rows[..e.inserted], lower)
  }

  /** Whatever has been cached of a trie with these entries, it is still right after the event. */
  ghost predicate KeepsEveryCache(m: Entries, lower: string -> string, e: Event)
    requires KeyedBy(m, lower)
  {
    forall cache :: Transparent(State(m, cache), lower) ==> Transparent(Step(State(m, cache), lower, true, e), lower)
  }

  /** A rebuild keeps every cache right if and only if it loaded every row and emptied the cache, or
      every query finds the same entries in the new trie as in the old one. */
  lemma DirtyRebuild(m: Entries, lower: string -> string, e: Event)
    requires KeyedBy(m, lower) && e.Rebuild?
    ensures KeepsEveryCache(m, lower, e) <==> Clean(e) || SameMatches(m, Rebuilt(e, lower), lower)
  {
    var n := Rebuilt(e, lower);
    if Clean(e) {
    } else if SameMatches(m, n, lower) {
      forall cache | Transparent(State(m, cache), lower)
        ensures Transparent(Step(State(m, cache), lower, true, e), lower)
      {
        assert Step(State(m, cache), lower, true, e) == State(n, cache);
        forall q, l | q != "" && CacheKey(q, l) in cache ensures cache[CacheKey(q, l)] == Answer(n, lower, q, l) {
          SameAnswersIff(m, n, lower, q);
        }
      }
    } else {
      var q: string :| q != "" && Matching(m, lower(q)) != Matching(n, lower(q));
      SameAnswersIff(m, n, lower, q);
      var l: int :| Answer(m, lower, q, l) != Answer(n, lower, q, l);
      CachedAloneIsStale(m, n, lower, q, l);
      assert Step(State(m, map[CacheKey(q, l) := Answer(m, lower, q, l)]), lower, true, e)
          == State(n, map[CacheKey(q, l) := Answer(m, lower, q, l)]);
    }
  }

  lemma CachedAloneIsStale(m: Entries, n: Entries, lower: string -> string, q: string, l: int)
    requires KeyedBy(m, lower) && KeyedBy(n, lower) && q != "" && Answer(m, lower, q, l) != Answer(n, lower, q, l)
    ensures var cache := map[CacheKey(q, l) := Answer(m, lower, q, l)];
            Transparent(State(m, cache), lower) && !Transparent(State(n, cache), lower)
  {
    var cache := map[CacheKey(q, l) := Answer(m, lower, q, l)];
    forall q', l' | q' != "" && CacheKey(q', l') in cache ensures cache[CacheKey(q', l')] == Answer(m, lower, q', l') {
      CacheKeyInjective(q', l', q, l);
    }
    assert CacheKey(q, l) in cache;
  }

  lemma RunAppend(s: State, lower: string -> string, cacheUp: bool, es: seq<Event>, e: Event)
    requires KeyedBy(s.entries, lower)
    ensures Run(s, lower, cacheUp, es + [e]) == Step(Run(s, lower, cacheUp, es), lower, cacheUp, e)
  {
    assert (es + [e])[..|es|] == es;
  }

  /** One term is loaded and searched for; the table is emptied and the trie rebuilt, but the flush
      fails: the search still finds the term. */
  lemma StaleAfterFailedFlush(d: TermData, lower: string -> string)
    requires d.term != ""
    ensures var es := [Rebuild([d], 1, true), Search(d.term, 10), Rebuild([], 0, false)];
            var r := Run(State(map[], map[]), lower, true, es);
            r.entries == map[] && Reply(r, lower, true, d.term, 10) == [d] && Answer(r.entries, lower, d.term, 10) == []
  {
    var es := [Rebuild([d], 1, true), Search(d.term, 10), Rebuild([], 0, false)];
    var s0 := State(map[], map[]);
    var s1 := Step(s0, lower, true, es[0]);
    var rows := [d];
    assert rows[..|rows| - 1] == [] && Loaded(rows, lower) == Loaded([], lower)[lower(d.term) := d];
    assert s1.entries == map[lower(d.term) := d];
    RunAppend(s0, lower, true, [], es[0]);
    RunAppend(s0, lower, true, [es[0]], es[1]);
    RunAppend(s0, lower, true, [es[0], es[1]], es[2]);
    assert [] + [es[0]] == [es[0]];
    assert es == [es[0], es[1]] + [es[2]] && [es[0], es[1]] == [es[0]] + [es[1]];
    OneMatch(s1.entries, lower, d);
    AnswerFromListing(map[], lower, d.term, 10, []);
  }

  lemma OneMatch(m: Entries, lower: string -> string, d: TermData)
    requires m == map[lower(d.term) := d] && d.term != "" && KeyedBy(m, lower)
    ensures Answer(m, lower, d.term, 10) == [d]
  {
    assert lower(d.term) in m && m[lower(d.term)] in Matching(m, lower(d.term));
    assert Lists([d], Matching(m, lower(d.term)));
    AnswerFromListing(m, lower, d.term, 10, [d]);
    assert Sorted([d]) == [d];
  }

  // --- The endpoint -----------------------------------------------------------------------------

  class Service {
    const lower: string -> string
    const cacheUp: bool
    var trie: SearchTrie
    var cache: map<string, seq<TermData>>

    ghost predicate Valid()
      reads this, trie, trie.nodes
    {
      trie.lower == lower && trie.Valid()
    }

    ghost function View(): (s: State)
      requires Valid()
      reads this, trie, trie.nodes
      ensures KeyedBy(s.entries, lower)
    {
      State(trie.contents, cache)
    }

    constructor (lower: string -> string, cacheUp: bool)
      ensures Valid() && View() == State(map[], map[]) && this.lower == lower && this.cacheUp == cacheUp
    {
      this.lower, this.cacheUp, cache := lower, cacheUp, map[];
      trie := new SearchTrie(lower);
    }

    method SearchAutocomplete(query: string, limit: int) returns (suggestions: seq<TermData>)
      requires Valid()
      modifies this`cache
      ensures Valid() && View() == Step(old(View()), lower, cacheUp, Search(query, limit))
      ensures suggestions == Reply(old(View()), lower, cacheUp, query, limit)
    {
      if query == "" { return []; }
      var key := CacheKey(query, limit);
      if cacheUp && key in cache {
        suggestions := cache[key];
        assert cache[key := suggestions] == cache;
        return;
      }
      suggestions := trie.SearchPrefix(query, limit);
      if cacheUp { cache := cache[key := suggestions]; }
    }

    /** Loading stops with an error after `inserted` rows, if that is before the last one. */
    method LoadDataToTrie(rows: seq<TermData>, inserted: nat) returns (ok: bool)
      requires Valid() && trie.contents == map[]
      modifies trie, trie.nodes
      ensures Valid() && fresh(trie.nodes - old(trie.nodes))
      ensures ok <==> inserted >= |rows|
      ensures trie.contents == Rebuilt(Rebuild(rows, inserted, true), lower)
    {
      for i := 0 to |rows|
        invariant Valid() && fresh(trie.nodes - old(trie.nodes))
        invariant i <= inserted && trie.contents == Loaded(rows[..i], lower)
      {
        if i == inserted { return false; }
        assert rows[..i + 1][..i] == rows[..i];
        trie.Insert(rows[i].term, rows[i].category, rows[i].popularity);
      }
      assert rows[..|rows|] == rows;
      ok := true;
    }

    method RebuildTrie(rows: seq<TermData>, inserted: nat, flushed: bool) returns (ok: bool)
      requires Valid()
      modifies this`trie, this`cache
      ensures Valid() && View() == Step(old(View()), lower, cacheUp, Rebuild(rows, inserted, flushed))
      ensures ok <==> inserted >= |rows|
    {
      trie := new SearchTrie(lower);
      ok := LoadDataToTrie(rows, inserted);
      if ok && cacheUp && flushed { cache := map[]; }
    }
  }
}
