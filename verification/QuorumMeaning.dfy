/** What one request does to every node, and what the nodes' clocks count. */
module QuorumMeaning {
  import opened Basics
  import opened QuorumStore

  /** The nodes before the `i`-th that are alive. */
  function AliveBefore(ns: seq<Node>, i: nat): set<nat>
    requires i <= |ns|
  {
    set j: nat | j < i && ns[j].alive
  }

  lemma {:induction false} RankIsSize(ns: seq<Node>, i: nat)
    requires i <= |ns|
    ensures Rank(ns, i) == |AliveBefore(ns, i)|
  {
    if i > 0 {
      RankIsSize(ns, i - 1);
      assert AliveBefore(ns, i) == AliveBefore(ns, i - 1) + if ns[i - 1].alive then {i - 1} else {};
    }
  }

  /** The node is one of the first `c` that are alive. */
  predicate AmongFirst(ns: seq<Node>, c: nat, i: nat) { i < |ns| && ns[i].alive && |AliveBefore(ns, i)| < c }

  /** Its request finds at least `c` nodes alive. */
  predicate QuorumOf(ns: seq<Node>, c: nat) { |AliveBefore(ns, |ns|)| >= c }

  // --- Reads ------------------------------------------------------------------------------------

  /** Two of the first `r` nodes alive report different clocks. */
  ghost predicate Disagree(ns: seq<Node>, r: nat, key: string) {
    exists i: nat, j: nat :: AmongFirst(ns, r, i) && AmongFirst(ns, r, j)
      && StoredClock(ns[i].redis, key).Some? && StoredClock(ns[j].redis, key).Some?
      && StoredClock(ns[i].redis, key) != StoredClock(ns[j].redis, key)
  }

  lemma DisagreeIff(ns: seq<Node>, r: nat, key: string)
    ensures Disagree(ns, r, key) <==> ClocksDiffer(ns, r, key)
  {
    forall i: nat | i < |ns| ensures AmongFirst(ns, r, i) <==> Asked(ns, r, i) { RankIsSize(ns, i); }
    if ClocksDiffer(ns, r, key) {
      var i, j :| 0 <= i < |ns| && 0 <= j < |ns| && Asked(ns, r, i) && Asked(ns, r, j)
        && StoredClock(ns[i].redis, key).Some? && StoredClock(ns[j].redis, key).Some?
        && StoredClock(ns[i].redis, key) != StoredClock(ns[j].redis, key);
      assert AmongFirst(ns, r, i) && AmongFirst(ns, r, j);
    }
  }

  /** `f` is the first node that is alive. */
  predicate IsFirst(ns: seq<Node>, f: nat) { f < |ns| && ns[f].alive && AliveBefore(ns, f) == {} }

  /** The node has the value and the clock that the other one has, and is else as it was. */
  ghost predicate CopiedFrom(n: Node, n': Node, f: Node, key: string) {
    && n' == n.(redis := n'.redis)
    && Lookup(n'.redis, key) == Lookup(f.redis, key) && StoredClock(n'.redis, key) == StoredClock(f.redis, key)
    && forall k :: k != key && k != "vc:" + key ==> Lookup(n'.redis, k) == Lookup(n.redis, k)
  }

  lemma {:induction false} FirstFrom(ns: seq<Node>, f: nat, from: nat)
    requires from <= f < |ns| && ns[f].alive && (forall j :: 0 <= j < f ==> !ns[j].alive)
    requires Rank(ns, from) < Alive(ns)
    ensures First(ns, from) == f
    decreases f - from
  {
    if from < f { FirstFrom(ns, f, from + 1); }
  }

  lemma FirstIsFirst(ns: seq<Node>, f: nat)
    requires IsFirst(ns, f)
    ensures Rank(ns, 0) < Alive(ns) && First(ns, 0) == f
  {
    RankIsSize(ns, |ns|);
    assert f in AliveBefore(ns, |ns|);
    forall j | 0 <= j < f ensures !ns[j].alive { assert j !in AliveBefore(ns, f); }
    FirstFrom(ns, f, 0);
  }

  /** A read answers what the first node alive holds. If two of those asked disagree, every node alive,
      asked or not, has the first one's value and clock afterwards, unless there is no value: then the
      request fails. Otherwise no node changes. */
  lemma ReadMeaning(ns: seq<Node>, r: nat, key: string, f: nat, i: nat)
    requires r >= 1 && IsFirst(ns, f) && i < |ns|
    ensures var (ns', reply) := Read(ns, r, key);
      && |ns'| == |ns|
      && (reply == QuorumNotMet <==> !QuorumOf(ns, r))
      && (reply == Crashed <==> QuorumOf(ns, r) && Disagree(ns, r, key) && Lookup(ns[f].redis, key) == None)
      && (reply.Answer? ==> reply.value == Lookup(ns[f].redis, key))
      && if reply.Answer? && Disagree(ns, r, key) && ns[i].alive then CopiedFrom(ns[i], ns'[i], ns[f], key)
         else ns'[i] == ns[i]
  {
    FirstIsFirst(ns, f);
    RankIsSize(ns, |ns|);
    DisagreeIff(ns, r, key);
    ClockKeyDiffers(key);
  }

  /** If nobody is alive no quorum is met, and nothing changes. */
  lemma ReadOfNobody(ns: seq<Node>, r: nat, key: string)
    requires r >= 1 && AliveBefore(ns, |ns|) == {}
    ensures Read(ns, r, key) == (ns, QuorumNotMet)
  {
    RankIsSize(ns, |ns|);
  }

  // --- Writes -----------------------------------------------------------------------------------

  /** The node stores the value under its own clock, which has ticked once. */
  ghost predicate Stores(n: Node, n': Node, key: string, v: Value) {
    && n' == n.(redis := n'.redis, clock := n'.clock)
    && Counter(n'.clock, n.port) == Counter(n.clock, n.port) + 1
    && (forall p :: p != n.port ==> Counter(n'.clock, p) == Counter(n.clock, p))
    && Lookup(n'.redis, key) == Some(Text(v)) && StoredClock(n'.redis, key) == Some(n'.clock)
    && forall k :: k != key && k != "vc:" + key ==> Lookup(n'.redis, k) == Lookup(n.redis, k)
  }

  function Counter(vc: VectorClock, p: nat): nat { if p in vc then vc[p] else 0 }

  /** A hint for the node is kept, with its own clock, which has not ticked. */
  ghost predicate Hints(n: Node, n': Node, key: string, v: Value) {
    && n' == n.(hints := n'.hints)
    && HintFor(n'.hints, key) == Some(Hint(key, v, n.clock))
    && forall k :: k != key ==> HintFor(n'.hints, k) == HintFor(n.hints, k)
  }

  /** A write is accepted exactly if it finds its quorum. Then the first `w` nodes alive store it,
      hints are kept for all that are not alive, and the other nodes do not change; if it is refused
      none does. */
  lemma WriteMeaning(ns: seq<Node>, w: nat, key: string, v: Value, i: nat)
    requires i < |ns|
    ensures var (ns', ok) := Write(ns, w, key, v);
      && |ns'| == |ns| && (ok <==> QuorumOf(ns, w))
      && if ok && !ns[i].alive then Hints(ns[i], ns'[i], key, v)
         else if ok && AmongFirst(ns, w, i) then Stores(ns[i], ns'[i], key, v)
         else ns'[i] == ns[i]
  {
    RankIsSize(ns, |ns|);
    RankIsSize(ns, i);
    ClockKeyDiffers(key);
    forall k ensures HintFor(PutHint(ns[i].hints, Hint(key, v, ns[i].clock)), k)
                  == if k == key then Some(Hint(key, v, ns[i].clock)) else HintFor(ns[i].hints, k)
    {
      PutHintFor(ns[i].hints, Hint(key, v, ns[i].clock), k);
    }
    if Alive(ns) >= w { assert Write(ns, w, key, v).0[i] == WriteAt(ns, w, key, v, i); }
  }

  // --- Hints ------------------------------------------------------------------------------------

  lemma PutClock(redis: map<string, Cell>, key: string, c: Cell, vc: Option<VectorClock>, k: string,
      keys: iset<string>)
    requires Separate(keys) && key in keys && k in keys && k != key
    ensures StoredClock(Put(redis, key, c, vc), k) == StoredClock(redis, k)
  {
    assert ClockKey(key)[3..] == key && ClockKey(k)[3..] == k;
    assert ClockKey(k) !in keys;
  }

  lemma {:induction false} FlushedClock(redis: map<string, Cell>, hints: seq<Hint>, k: string, keys: iset<string>)
    requires Separate(keys) && HintsIn(hints, keys) && k in keys
    ensures StoredClock(Flushed(redis, hints), k)
         == if HintFor(hints, k).Some? then Some(HintFor(hints, k).value.clock) else StoredClock(redis, k)
  {
    if hints != [] {
      var before, h := hints[..|hints| - 1], hints[|hints| - 1];
      FlushedClock(redis, before, k, keys);
      if h.key != k { PutClock(Flushed(redis, before), h.key, Text(h.value), Some(h.clock), k, keys); }
    }
  }

  /** Flushing writes the value and the clock of every hint, leaves keys without one as they are, and
      forgets the hints. */
  lemma FlushMeaning(n: Node, k: string, keys: iset<string>)
    requires Separate(keys) && HintsIn(n.hints, keys) && k in keys
    ensures var n' := Flush(n);
      && n' == n.(redis := n'.redis, hints := [])
      && match HintFor(n.hints, k)
         case Some(h) => Lookup(n'.redis, k) == Some(Text(h.value)) && StoredClock(n'.redis, k) == Some(h.clock)
         case None => Lookup(n'.redis, k) == Lookup(n.redis, k) && StoredClock(n'.redis, k) == StoredClock(n.redis, k)
  {
    FlushedFor(n.redis, n.hints, k, keys);
    FlushedClock(n.redis, n.hints, k, keys);
  }

  // --- Clocks -----------------------------------------------------------------------------------

  /** How many of the writes of a run the node stored itself. */
  function StoredWrites(n: nat, w: nat, r: nat, es: seq<Event>, i: nat): nat
    requires r >= 1
  {
    if es == [] then 0
    else
      var before, e := es[..|es| - 1], es[|es| - 1];
      var ns := Run(Empty(n), w, r, before).nodes;
      StoredWrites(n, w, r, before, i) + if e.WriteRequest? && QuorumOf(ns, w) && AmongFirst(ns, w, i) then 1 else 0
  }

  lemma StepClock(s: System, w: nat, r: nat, e: Event, i: nat)
    requires r >= 1 && i < |s.nodes|
    ensures var n, n' := s.nodes[i], Step(s, w, r, e).nodes[i];
      n'.port == n.port
      && n'.clock == if e.WriteRequest? && QuorumOf(s.nodes, w) && AmongFirst(s.nodes, w, i) then Tick(n) else n.clock
  {
    RankIsSize(s.nodes, |s.nodes|);
    RankIsSize(s.nodes, i);
  }

  /** In every run a node's clock counts the writes it stored itself, and nothing else: it never learns
      of another node's. */
  lemma {:induction false} RunClocks(n: nat, w: nat, r: nat, es: seq<Event>, i: nat)
    requires r >= 1 && i < n
    ensures var ns, count := Run(Empty(n), w, r, es).nodes, StoredWrites(n, w, r, es, i);
            |ns| == n && ns[i].port == i && ns[i].clock == if count == 0 then map[] else map[i := count]
  {
    if es != [] {
      RunClocks(n, w, r, es[..|es| - 1], i);
      StepClock(Run(Empty(n), w, r, es[..|es| - 1]), w, r, es[|es| - 1], i);
    }
  }
}
