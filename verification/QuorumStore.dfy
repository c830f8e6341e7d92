/**
 * The quorum store: writes go to the first W nodes that are alive (with hints for those that are
 * not), reads ask the first R and answer what the first of them says, repairing the others when
 * their vector clocks differ.
 */
module QuorumStore {
  import opened Basics

  type Value = string
  type VectorClock = map<nat, nat>

  /** What a node's Redis holds under a key: a value, or a clock (possibly null) as JSON. */
  datatype Cell = Text(value: Value) | Clock(clock: Option<VectorClock>)

  datatype Hint = Hint(key: string, value: Value, clock: VectorClock)

  /** The hints are in the order in which their keys were first hinted. */
  datatype Node = Node(port: nat, alive: bool, redis: map<string, Cell>, clock: VectorClock, hints: seq<Hint>)

  function ClockKey(key: string): string { "vc:" + key }

  function Put(redis: map<string, Cell>, key: string, v: Cell, vc: Option<VectorClock>): map<string, Cell> {
    redis[key := v][ClockKey(key) := Clock(vc)]
  }

  function Lookup(redis: map<string, Cell>, key: string): Option<Cell> {
    if key in redis then Some(redis[key]) else None
  }

  function StoredClock(redis: map<string, Cell>, key: string): Option<VectorClock> {
    match Lookup(redis, ClockKey(key))
    case Some(Clock(vc)) => vc
    case _ => None
  }

  function Tick(n: Node): VectorClock {
    n.clock[n.port := if n.port in n.clock then n.clock[n.port] + 1 else 1]
  }

  // --- Requests, node by node -------------------------------------------------------------------

  /** How many of the first `i` nodes are alive. */
  function Rank(nodes: seq<Node>, i: nat): nat
    requires i <= |nodes|
  {
    if i == 0 then 0 else Rank(nodes, i - 1) + if nodes[i - 1].alive then 1 else 0
  }

  function Alive(nodes: seq<Node>): nat { Rank(nodes, |nodes|) }

  function Stored(n: Node, key: string, v: Value): Node {
    n.(clock := Tick(n), redis := Put(n.redis, key, Text(v), Some(Tick(n))))
  }

  function HintFor(hints: seq<Hint>, key: string): Option<Hint> {
    if hints == [] then None
    else if hints[|hints| - 1].key == key then Some(hints[|hints| - 1])
    else HintFor(hints[..|hints| - 1], key)
  }

  function Replaced(hints: seq<Hint>, h: Hint): seq<Hint> {
    if hints == [] then []
    else if hints[|hints| - 1].key == h.key then hints[..|hints| - 1] + [h]
    else Replaced(hints[..|hints| - 1], h) + [hints[|hints| - 1]]
  }

  /** A hint takes the place of the one its key has, or the last place. */
  function PutHint(hints: seq<Hint>, h: Hint): seq<Hint> {
    if HintFor(hints, h.key).None? then hints + [h] else Replaced(hints, h)
  }

  function Hinted(n: Node, key: string, v: Value): Node {
    n.(hints := PutHint(n.hints, Hint(key, v, n.clock)))
  }

  /** A write that meets its quorum, at node `i`. */
  function WriteAt(nodes: seq<Node>, w: nat, key: string, v: Value, i: nat): Node
    requires i < |nodes|
  {
    var n := nodes[i];
    if !n.alive then Hinted(n, key, v)
    else if Rank(nodes, i) < w then Stored(n, key, v)
    else n
  }

  function Write(nodes: seq<Node>, w: nat, key: string, v: Value): (seq<Node>, bool) {
    if Alive(nodes) < w then (nodes, false)
    else (seq(|nodes|, i requires 0 <= i < |nodes| => WriteAt(nodes, w, key, v, i)), true)
  }

  /** The first node that is alive. */
  function First(nodes: seq<Node>, from: nat): (i: nat)
    requires from <= |nodes| && Rank(nodes, from) < Alive(nodes)
    ensures from <= i < |nodes| && nodes[i].alive && Rank(nodes, i) == Rank(nodes, from)
    decreases |nodes| - from
  {
    if nodes[from].alive then from else First(nodes, from + 1)
  }

  /** Among the first `r` nodes that are alive, two report different clocks. */
  predicate ClocksDiffer(nodes: seq<Node>, r: nat, key: string) {
    exists i, j :: 0 <= i < |nodes| && 0 <= j < |nodes| && Asked(nodes, r, i) && Asked(nodes, r, j)
      && StoredClock(nodes[i].redis, key).Some? && StoredClock(nodes[j].redis, key).Some?
      && StoredClock(nodes[i].redis, key) != StoredClock(nodes[j].redis, key)
  }

  predicate Asked(nodes: seq<Node>, r: nat, i: nat)
    requires i < |nodes|
  {
    nodes[i].alive && Rank(nodes, i) < r
  }

  datatype Reply = QuorumNotMet | Answer(value: Option<Cell>) | Crashed

  /** Repair gives every node that is alive the first one's value and clock. */
  function Repaired(nodes: seq<Node>, key: string, v: Cell, vc: Option<VectorClock>): seq<Node> {
    seq(|nodes|, i requires 0 <= i < |nodes| =>
      if nodes[i].alive then nodes[i].(redis := Put(nodes[i].redis, key, v, vc)) else nodes[i])
  }

  /** Repairing with a missing value is refused by Redis. */
  function Read(nodes: seq<Node>, r: nat, key: string): (seq<Node>, Reply)
    requires r >= 1
  {
    if Alive(nodes) < r then (nodes, QuorumNotMet)
    else
      var first := nodes[First(nodes, 0)];
      var latest := Lookup(first.redis, key);
      if !ClocksDiffer(nodes, r, key) then (nodes, Answer(latest))
      else if latest.None? then (nodes, Crashed)
      else (Repaired(nodes, key, latest.value, StoredClock(first.redis, key)), Answer(latest))
  }

  /** Every hint is written, in order. */
  function Flushed(redis: map<string, Cell>, hints: seq<Hint>): map<string, Cell> {
    if hints == [] then redis
    else
      var h := hints[|hints| - 1];
      Put(Flushed(redis, hints[..|hints| - 1]), h.key, Text(h.value), Some(h.clock))
  }

  function Flush(n: Node): Node { n.(redis := Flushed(n.redis, n.hints), hints := []) }

  // --- Runs -------------------------------------------------------------------------------------

  /** `flushed` is whether a node that comes back has its hints written at once. They can also be
      written at any later time at which it is alive. */
  datatype Event =
    | Fail(i: nat)
    | Rejoin(i: nat, flushed: bool)
    | FlushNode(i: nat)
    | WriteRequest(key: string, value: Value)
    | ReadRequest(key: string)

  /** The nodes and, as history, the value of the last accepted write of each key. */
  datatype System = System(nodes: seq<Node>, last: map<string, Value>)

  function Rejoined(n: Node, flushed: bool): Node {
    if flushed then Flush(n).(alive := true) else n.(alive := true)
  }

  function Step(s: System, w: nat, r: nat, e: Event): (s': System)
    requires r >= 1
    ensures |s'.nodes| == |s.nodes|
  {
    match e
    case Fail(i) => if i < |s.nodes| then s.(nodes := s.nodes[i := s.nodes[i].(alive := false)]) else s
    case Rejoin(i, flushed) =>
      if i < |s.nodes| && !s.nodes[i].alive then s.(nodes := s.nodes[i := Rejoined(s.nodes[i], flushed)]) else s
    case FlushNode(i) =>
      if i < |s.nodes| && s.nodes[i].alive then s.(nodes := s.nodes[i := Flush(s.nodes[i])]) else s
    case WriteRequest(k, v) =>
      var (nodes, ok) := Write(s.nodes, w, k, v);
      System(nodes, if ok then s.last[k := v] else s.last)
    case ReadRequest(k) => s.(nodes := Read(s.nodes, r, k).0)
  }

  function Run(s: System, w: nat, r: nat, es: seq<Event>): (s': System)
    requires r >= 1
    ensures |s'.nodes| == |s.nodes|
  {
    if es == [] then s else Step(Run(s, w, r, es[..|es| - 1]), w, r, es[|es| - 1])
  }

  /** `n` empty nodes, all alive. */
  function Empty(n: nat): System {
    System(seq(n, (i: nat) => Node(i, true, map[], map[], [])), map[])
  }

  /** No key is where another one keeps its clock. */
  ghost predicate Separate(keys: iset<string>) { forall k :: k in keys ==> ClockKey(k) !in keys }

  /** Clients use these keys, and if `always`, nodes come back with their hints. */
  ghost predicate Proper(e: Event, keys: iset<string>, always: bool) {
    match e
    case WriteRequest(k, _) => k in keys
    case ReadRequest(k) => k in keys
    case Rejoin(_, flushed) => flushed || !always
    case _ => true
  }

  ghost predicate AllProper(es: seq<Event>, keys: iset<string>, always: bool) {
    forall j :: 0 <= j < |es| ==> Proper(es[j], keys, always)
  }

  function Latest(s: System, k: string): Option<Cell> {
    if k in s.last then Some(Text(s.last[k])) else None
  }

  /** What the node holds, or will hold once it is back. */
  function Held(n: Node, k: string): Option<Cell> {
    if !n.alive && HintFor(n.hints, k).Some? then Some(Text(HintFor(n.hints, k).value.value)) else Lookup(n.redis, k)
  }

  /** How many of the first `i` nodes hold the latest value. */
  function Fresh(nodes: seq<Node>, k: string, latest: Option<Cell>, i: nat): nat
    requires i <= |nodes|
  {
    if i == 0 then 0 else Fresh(nodes, k, latest, i - 1) + if Held(nodes[i - 1], k) == latest then 1 else 0
  }

  predicate Untouched(n: Node, k: string) {
    k !in n.redis && ClockKey(k) !in n.redis && HintFor(n.hints, k).None?
  }

  /** Every node that does not hold the latest value has at least `w` before it that do. */
  predicate KeyOk(nodes: seq<Node>, w: nat, k: string, latest: Option<Cell>) {
    && (forall i :: 0 <= i < |nodes| ==> Held(nodes[i], k) == latest || Fresh(nodes, k, latest, i) >= w)
    && (latest.None? ==> forall i :: 0 <= i < |nodes| ==> Untouched(nodes[i], k))
  }

  ghost predicate HintsIn(hints: seq<Hint>, keys: iset<string>) {
    forall j :: 0 <= j < |hints| ==> hints[j].key in keys
  }

  ghost predicate HintsOk(n: Node, keys: iset<string>) { (n.alive ==> n.hints == []) && HintsIn(n.hints, keys) }

  ghost predicate SystemOk(s: System, w: nat, keys: iset<string>) {
    && (forall i :: 0 <= i < |s.nodes| ==> HintsOk(s.nodes[i], keys))
    && (forall k: string :: k in keys ==> KeyOk(s.nodes, w, k, Latest(s, k)))
  }

  // --- Counting ---------------------------------------------------------------------------------

  lemma {:induction false} FreshMonotone(nodes: seq<Node>, nodes': seq<Node>, k: string, latest: Option<Cell>, i: nat)
    requires i <= |nodes| == |nodes'|
    requires forall j :: 0 <= j < i && Held(nodes[j], k) == latest ==> Held(nodes'[j], k) == latest
    ensures Fresh(nodes, k, latest, i) <= Fresh(nodes', k, latest, i)
  {
    if i > 0 { FreshMonotone(nodes, nodes', k, latest, i - 1); }
  }

  lemma {:induction false} FreshAtMost(nodes: seq<Node>, k: string, latest: Option<Cell>, i: nat)
    requires i <= |nodes|
    ensures Fresh(nodes, k, latest, i) <= i
  {
    if i > 0 { FreshAtMost(nodes, k, latest, i - 1); }
  }

  lemma {:induction false} RankAtMost(nodes: seq<Node>, i: nat)
    requires i <= |nodes|
    ensures Alive(nodes) <= Rank(nodes, i) + (|nodes| - i)
    decreases |nodes| - i
  {
    if i < |nodes| { RankAtMost(nodes, i + 1); }
  }

  /** Freshness is kept by any change that keeps what each node holds of the key. */
  lemma KeyKept(nodes: seq<Node>, nodes': seq<Node>, w: nat, k: string, latest: Option<Cell>)
    requires KeyOk(nodes, w, k, latest) && |nodes| == |nodes'|
    requires forall j :: 0 <= j < |nodes| ==> (Held(nodes[j], k) == latest ==> Held(nodes'[j], k) == latest)
    requires latest.None? ==> forall j :: 0 <= j < |nodes| ==> Untouched(nodes'[j], k)
    requires forall j :: 0 <= j < |nodes| ==>
               (Held(nodes[j], k) != latest ==> Held(nodes'[j], k) == latest || Fresh(nodes, k, latest, j) >= w)
    ensures KeyOk(nodes', w, k, latest)
  {
    forall i | 0 <= i < |nodes'| ensures Held(nodes'[i], k) == latest || Fresh(nodes', k, latest, i) >= w {
      FreshMonotone(nodes, nodes', k, latest, i);
    }
  }

  // --- Steps ------------------------------------------------------------------------------------

  /** After an accepted write of `key`, at least `w` of the nodes before any later one are fresh. */
  lemma {:induction false} WriteFresh(nodes: seq<Node>, w: nat, key: string, v: Value, i: nat)
    requires Alive(nodes) >= w && i <= |nodes|
    ensures var nodes' := Write(nodes, w, key, v).0;
            Fresh(nodes', key, Some(Text(v)), i) >= if Rank(nodes, i) < w then Rank(nodes, i) else w
  {
    if i > 0 {
      WriteFresh(nodes, w, key, v, i - 1);
      WrittenHeld(nodes, w, key, v, i - 1);
    }
  }

  lemma ClockKeyDiffers(key: string)
    ensures ClockKey(key) != key
  {
    assert |ClockKey(key)| == |key| + 3;
  }

  lemma WrittenHeld(nodes: seq<Node>, w: nat, key: string, v: Value, i: nat)
    requires Alive(nodes) >= w && i < |nodes|
    ensures var n := Write(nodes, w, key, v).0[i];
            (if !nodes[i].alive || Rank(nodes, i) < w then Held(n, key) == Some(Text(v)) else n == nodes[i])
  {
    assert Write(nodes, w, key, v).0[i] == WriteAt(nodes, w, key, v, i);
    ClockKeyDiffers(key);
    PutHintFor(nodes[i].hints, Hint(key, v, nodes[i].clock), key);
  }

  lemma {:induction false} ReplacedFor(hints: seq<Hint>, h: Hint, k: string)
    ensures HintFor(Replaced(hints, h), k)
         == if k == h.key && HintFor(hints, k).Some? then Some(h) else HintFor(hints, k)
  {
    if hints != [] {
      var before, last := hints[..|hints| - 1], hints[|hints| - 1];
      ReplacedFor(before, h, k);
      assert (before + [h])[..|before|] == before;
      assert (Replaced(before, h) + [last])[..|Replaced(before, h)|] == Replaced(before, h);
    }
  }

  lemma PutHintFor(hints: seq<Hint>, h: Hint, k: string)
    ensures HintFor(PutHint(hints, h), k) == if k == h.key then Some(h) else HintFor(hints, k)
  {
    ReplacedFor(hints, h, k);
    assert (hints + [h])[..|hints|] == hints;
  }

  lemma {:induction false} ReplacedIn(hints: seq<Hint>, h: Hint, keys: iset<string>)
    requires HintsIn(hints, keys) && h.key in keys
    ensures HintsIn(Replaced(hints, h), keys)
  {
    if hints != [] { ReplacedIn(hints[..|hints| - 1], h, keys); }
  }

  /** Clock keys are injective, and among separate keys none is another's clock key. */
  lemma PutKeepsOther(redis: map<string, Cell>, key: string, c: Cell, vc: Option<VectorClock>, k: string,
      keys: iset<string>)
    requires Separate(keys) && key in keys && k in keys && k != key
    ensures var redis' := Put(redis, key, c, vc);
            Lookup(redis', k) == Lookup(redis, k) && (ClockKey(k) in redis' <==> ClockKey(k) in redis)
  {
    assert ClockKey(key)[3..] == key && ClockKey(k)[3..] == k;
    assert ClockKey(key) !in keys && ClockKey(k) !in keys;
  }

  lemma OtherKeyKept(n: Node, key: string, v: Value, k: string, keys: iset<string>)
    requires Separate(keys) && key in keys && k in keys && k != key
    ensures Held(Stored(n, key, v), k) == Held(n, k) && (Untouched(n, k) ==> Untouched(Stored(n, key, v), k))
    ensures Held(Hinted(n, key, v), k) == Held(n, k) && (Untouched(n, k) ==> Untouched(Hinted(n, key, v), k))
  {
    PutKeepsOther(n.redis, key, Text(v), Some(Tick(n)), k, keys);
    PutHintFor(n.hints, Hint(key, v, n.clock), k);
  }

  lemma WriteKeepsOther(s: System, w: nat, key: string, v: Value, k: string, keys: iset<string>)
    requires SystemOk(s, w, keys) && Separate(keys) && key in keys && k in keys && k != key
    ensures KeyOk(Write(s.nodes, w, key, v).0, w, k, Latest(s, k))
  {
    var nodes' := Write(s.nodes, w, key, v).0;
    forall i | 0 <= i < |nodes'|
      ensures Held(nodes'[i], k) == Held(s.nodes[i], k) && (Untouched(s.nodes[i], k) ==> Untouched(nodes'[i], k))
    {
      OtherKeyKept(s.nodes[i], key, v, k, keys);
    }
    assert KeyOk(s.nodes, w, k, Latest(s, k));
    KeyKept(s.nodes, nodes', w, k, Latest(s, k));
  }

  lemma WriteKeepsKey(s: System, w: nat, key: string, v: Value)
    requires Alive(s.nodes) >= w && forall i :: 0 <= i < |s.nodes| ==> (s.nodes[i].alive ==> s.nodes[i].hints == [])
    ensures KeyOk(Write(s.nodes, w, key, v).0, w, key, Some(Text(v)))
  {
    var nodes' := Write(s.nodes, w, key, v).0;
    forall i | 0 <= i < |nodes'|
      ensures Held(nodes'[i], key) == Some(Text(v)) || Fresh(nodes', key, Some(Text(v)), i) >= w
    {
      WriteFresh(s.nodes, w, key, v, i);
      WrittenHeld(s.nodes, w, key, v, i);
    }
  }

  /** Flushing leaves under each key its hint, if it has one. */
  lemma {:induction false} FlushedFor(redis: map<string, Cell>, hints: seq<Hint>, k: string, keys: iset<string>)
    requires Separate(keys) && HintsIn(hints, keys) && k in keys
    ensures var f := Flushed(redis, hints);
      match HintFor(hints, k)
      case Some(h) => Lookup(f, k) == Some(Text(h.value))
      case None => Lookup(f, k) == Lookup(redis, k) && (ClockKey(k) in f <==> ClockKey(k) in redis)
  {
    if hints != [] {
      var before, h := hints[..|hints| - 1], hints[|hints| - 1];
      FlushedFor(redis, before, k, keys);
      if h.key != k {
        PutKeepsOther(Flushed(redis, before), h.key, Text(h.value), Some(h.clock), k, keys);
      } else {
        ClockKeyDiffers(k);
      }
    }
  }

  lemma FlushHeld(n: Node, k: string, keys: iset<string>)
    requires Separate(keys) && HintsOk(n, keys) && k in keys
    ensures Held(Flush(n), k) == Held(n, k) && (Untouched(n, k) ==> Untouched(Flush(n), k))
    ensures !n.alive ==> Held(Rejoined(n, true), k) == Held(n, k)
  {
    FlushedFor(n.redis, n.hints, k, keys);
  }

  lemma NodeStepKeepsKey(s: System, w: nat, i: nat, n: Node, k: string, keys: iset<string>)
    requires SystemOk(s, w, keys) && i < |s.nodes| && k in keys
    requires Held(n, k) == Held(s.nodes[i], k) && (Untouched(s.nodes[i], k) ==> Untouched(n, k))
    ensures KeyOk(s.nodes[i := n], w, k, Latest(s, k))
  {
    KeyKept(s.nodes, s.nodes[i := n], w, k, Latest(s, k));
  }

  /** The heart of the matter: when a read meets its quorum, the first node alive is fresh. */
  lemma FirstIsFresh(s: System, w: nat, r: nat, k: string, keys: iset<string>)
    requires SystemOk(s, w, keys) && k in keys && r >= 1 && w + r > |s.nodes| && Alive(s.nodes) >= r
    ensures Lookup(s.nodes[First(s.nodes, 0)].redis, k) == Latest(s, k)
  {
    var f := First(s.nodes, 0);
    RankAtMost(s.nodes, f);
    FreshAtMost(s.nodes, k, Latest(s, k), f);
    assert KeyOk(s.nodes, w, k, Latest(s, k));
  }

  lemma NoClocks(s: System, w: nat, r: nat, k: string, keys: iset<string>)
    requires SystemOk(s, w, keys) && k in keys && Latest(s, k).None?
    ensures !ClocksDiffer(s.nodes, r, k)
  {
    assert KeyOk(s.nodes, w, k, Latest(s, k));
  }

  /** A read that meets its quorum answers the last value written, and its repair only spreads it. */
  lemma ReadIsLatest(s: System, w: nat, r: nat, k: string, keys: iset<string>)
    requires SystemOk(s, w, keys) && k in keys && r >= 1 && w + r > |s.nodes|
    ensures Read(s.nodes, r, k).1 == if Alive(s.nodes) < r then QuorumNotMet else Answer(Latest(s, k))
  {
    if Alive(s.nodes) >= r {
      FirstIsFresh(s, w, r, k, keys);
      if Latest(s, k).None? { NoClocks(s, w, r, k, keys); }
    }
  }

  lemma RepairKeepsKey(s: System, w: nat, key: string, c: Cell, vc: Option<VectorClock>, k: string, keys: iset<string>)
    requires SystemOk(s, w, keys) && Separate(keys) && key in keys && k in keys
        && (k == key ==> Latest(s, k) == Some(c))
    ensures KeyOk(Repaired(s.nodes, key, c, vc), w, k, Latest(s, k))
  {
    var nodes' := Repaired(s.nodes, key, c, vc);
    ClockKeyDiffers(key);
    forall i | 0 <= i < |nodes'|
      ensures Held(nodes'[i], k) == Held(s.nodes[i], k) || (k == key && Held(nodes'[i], k) == Some(c))
      ensures k != key && Untouched(s.nodes[i], k) ==> Untouched(nodes'[i], k)
    {
      if k != key { PutKeepsOther(s.nodes[i].redis, key, c, vc, k, keys); }
    }
    assert KeyOk(s.nodes, w, k, Latest(s, k));
    KeyKept(s.nodes, nodes', w, k, Latest(s, k));
  }

  lemma ReadKeepsKey(s: System, w: nat, r: nat, key: string, k: string, keys: iset<string>)
    requires SystemOk(s, w, keys) && Separate(keys) && key in keys && k in keys && r >= 1 && w + r > |s.nodes|
    ensures KeyOk(Read(s.nodes, r, key).0, w, k, Latest(s, k))
  {
    assert KeyOk(s.nodes, w, k, Latest(s, k));
    if Alive(s.nodes) >= r {
      FirstIsFresh(s, w, r, key, keys);
      var first := s.nodes[First(s.nodes, 0)];
      if key in first.redis { RepairKeepsKey(s, w, key, first.redis[key], StoredClock(first.redis, key), k, keys); }
    }
  }

  lemma StepKeepsKey(s: System, w: nat, r: nat, e: Event, k: string, keys: iset<string>)
    requires SystemOk(s, w, keys) && Separate(keys) && Proper(e, keys, true) && r >= 1 && w + r > |s.nodes| && k in keys
    ensures KeyOk(Step(s, w, r, e).nodes, w, k, Latest(Step(s, w, r, e), k))
  {
    var s' := Step(s, w, r, e);
    assert KeyOk(s.nodes, w, k, Latest(s, k));
    match e
    case Fail(i) => if i < |s.nodes| { NodeStepKeepsKey(s, w, i, s'.nodes[i], k, keys); }
    case Rejoin(i, _) =>
      if i < |s.nodes| && !s.nodes[i].alive {
        FlushHeld(s.nodes[i], k, keys);
        NodeStepKeepsKey(s, w, i, s'.nodes[i], k, keys);
      }
    case FlushNode(i) =>
      if i < |s.nodes| && s.nodes[i].alive {
        FlushHeld(s.nodes[i], k, keys);
        NodeStepKeepsKey(s, w, i, s'.nodes[i], k, keys);
      }
    case WriteRequest(key, v) =>
      if k != key {
        WriteKeepsOther(s, w, key, v, k, keys);
      } else if Alive(s.nodes) >= w {
        WriteKeepsKey(s, w, key, v);
      }
    case ReadRequest(key) => ReadKeepsKey(s, w, r, key, k, keys);
  }

  lemma HintsKept(s: System, w: nat, r: nat, e: Event, keys: iset<string>)
    requires (forall i :: 0 <= i < |s.nodes| ==> HintsOk(s.nodes[i], keys)) && Proper(e, keys, true) && r >= 1
    ensures var s' := Step(s, w, r, e); forall i :: 0 <= i < |s'.nodes| ==> HintsOk(s'.nodes[i], keys)
  {
    if e.WriteRequest? {
      forall i | 0 <= i < |s.nodes| ensures HintsIn(Hinted(s.nodes[i], e.key, e.value).hints, keys) {
        ReplacedIn(s.nodes[i].hints, Hint(e.key, e.value, s.nodes[i].clock), keys);
      }
    }
  }

  lemma StepKeepsOk(s: System, w: nat, r: nat, e: Event, keys: iset<string>)
    requires SystemOk(s, w, keys) && Separate(keys) && Proper(e, keys, true) && r >= 1 && w + r > |s.nodes|
    ensures SystemOk(Step(s, w, r, e), w, keys)
  {
    forall k: string | k in keys ensures KeyOk(Step(s, w, r, e).nodes, w, k, Latest(Step(s, w, r, e), k)) {
      StepKeepsKey(s, w, r, e, k, keys);
    }
    HintsKept(s, w, r, e, keys);
  }

  lemma EmptyOk(n: nat, w: nat, keys: iset<string>)
    ensures SystemOk(Empty(n), w, keys)
  {
  }

  lemma {:induction false} RunOk(n: nat, w: nat, r: nat, es: seq<Event>, keys: iset<string>)
    requires r >= 1 && w + r > n && Separate(keys) && AllProper(es, keys, true)
    ensures |Run(Empty(n), w, r, es).nodes| == n && SystemOk(Run(Empty(n), w, r, es), w, keys)
  {
    if es == [] {
      EmptyOk(n, w, keys);
    } else {
      RunOk(n, w, r, es[..|es| - 1], keys);
      StepKeepsOk(Run(Empty(n), w, r, es[..|es| - 1]), w, r, es[|es| - 1], keys);
    }
  }

  // --- Writes that need every node --------------------------------------------------------------

  ghost predicate NoHints(s: System) { forall i :: 0 <= i < |s.nodes| ==> s.nodes[i].hints == [] }

  lemma {:induction false} RankBelow(nodes: seq<Node>, i: nat)
    requires i <= |nodes|
    ensures Rank(nodes, i) <= i
  {
    if i > 0 { RankBelow(nodes, i - 1); }
  }

  lemma AllAlive(nodes: seq<Node>, i: nat)
    requires Alive(nodes) >= |nodes| && i < |nodes|
    ensures nodes[i].alive
  {
    RankAtMost(nodes, i + 1);
    RankBelow(nodes, i);
  }

  /** If an accepted write needs every node, no hint is ever kept, and it makes no difference whether
      nodes come back with them. */
  lemma StepKeepsNoHints(s: System, w: nat, r: nat, e: Event)
    requires NoHints(s) && r >= 1 && w >= |s.nodes|
    ensures NoHints(Step(s, w, r, e))
    ensures e.Rejoin? ==> Step(s, w, r, e) == Step(s, w, r, Rejoin(e.i, true))
  {
    if e.WriteRequest? && Alive(s.nodes) >= w {
      forall i | 0 <= i < |s.nodes| ensures s.nodes[i].alive { AllAlive(s.nodes, i); }
    }
  }

  lemma {:induction false} RunNeedingAll(n: nat, w: nat, r: nat, es: seq<Event>, keys: iset<string>)
    requires r >= 1 && w >= n && Separate(keys) && AllProper(es, keys, false)
    ensures var s := Run(Empty(n), w, r, es); |s.nodes| == n && SystemOk(s, w, keys) && NoHints(s)
  {
    if es == [] {
      EmptyOk(n, w, keys);
    } else {
      var s, e := Run(Empty(n), w, r, es[..|es| - 1]), es[|es| - 1];
      RunNeedingAll(n, w, r, es[..|es| - 1], keys);
      StepKeepsNoHints(s, w, r, e);
      StepKeepsOk(s, w, r, if e.Rejoin? then Rejoin(e.i, true) else e, keys);
    }
  }

  // --- Writes that are never accepted -----------------------------------------------------------

  ghost predicate Pristine(s: System) {
    s.last == map[] && forall i :: 0 <= i < |s.nodes| ==> s.nodes[i].redis == map[] && s.nodes[i].hints == []
  }

  lemma {:induction false} RunPristine(n: nat, w: nat, r: nat, es: seq<Event>)
    requires r >= 1 && w > n
    ensures |Run(Empty(n), w, r, es).nodes| == n && Pristine(Run(Empty(n), w, r, es))
  {
    if es != [] {
      RunPristine(n, w, r, es[..|es| - 1]);
      RankBelow(Run(Empty(n), w, r, es[..|es| - 1]).nodes, n);
    }
  }

  // --- When reads can go wrong ------------------------------------------------------------------

  /** After this run, a read of `k` that meets its quorum answers the last value written to it. */
  predicate ReadsLatest(n: nat, w: nat, r: nat, es: seq<Event>, k: string)
    requires r >= 1
  {
    var s := Run(Empty(n), w, r, es);
    Read(s.nodes, r, k).1 == if Alive(s.nodes) < r then QuorumNotMet else Answer(Latest(s, k))
  }

  ghost predicate Consistent(n: nat, w: nat, r: nat, keys: iset<string>, always: bool)
    requires r >= 1
  {
    forall es: seq<Event>, k: string :: k in keys && AllProper(es, keys, always) ==> ReadsLatest(n, w, r, es, k)
  }

  lemma RunAppend(s: System, w: nat, r: nat, es: seq<Event>, e: Event)
    requires r >= 1
    ensures Run(s, w, r, es + [e]) == Step(Run(s, w, r, es), w, r, e)
  {
    assert (es + [e])[..|es|] == es;
  }

  /** `key` is written and the first `j` nodes fail, in turn. */
  function Failures(key: string, j: nat): seq<Event> {
    if j == 0 then [WriteRequest(key, "v")] else Failures(key, j - 1) + [Fail(j - 1)]
  }

  lemma {:induction false} EmptyAlive(n: nat, i: nat)
    requires i <= n
    ensures Rank(Empty(n).nodes, i) == i
  {
    if i > 0 { EmptyAlive(n, i - 1); }
  }

  /** One write with all nodes alive reaches the first `w`. */
  lemma FirstWrite(n: nat, w: nat, r: nat, key: string, v: Value)
    requires r >= 1 && w <= n
    ensures var s := Run(Empty(n), w, r, [WriteRequest(key, v)]);
      && |s.nodes| == n && s.last == map[key := v]
      && forall i :: 0 <= i < n ==> s.nodes[i] == if i < w then Stored(Empty(n).nodes[i], key, v) else Empty(n).nodes[i]
  {
    var s0 := Empty(n);
    EmptyAlive(n, n);
    var nodes' := Write(s0.nodes, w, key, v).0;
    RunAppend(s0, w, r, [], WriteRequest(key, v));
    assert [] + [WriteRequest(key, v)] == [WriteRequest(key, v)];
    forall i | 0 <= i < n ensures nodes'[i] == if i < w then Stored(s0.nodes[i], key, v) else s0.nodes[i] {
      EmptyAlive(n, i);
      assert nodes'[i] == WriteAt(s0.nodes, w, key, v, i);
    }
  }

  /** The write is the last one, its first `w` nodes may hold it, and the first `j` are down. */
  predicate FailedUpTo(s: System, n: nat, w: nat, key: string, j: nat) {
    && |s.nodes| == n && Latest(s, key) == Some(Text("v"))
    && (forall i :: 0 <= i < n ==> (s.nodes[i].alive <==> i >= j))
    && (forall i :: w <= i < n ==> s.nodes[i].redis == map[])
  }

  lemma OneFails(s: System, n: nat, w: nat, r: nat, key: string, j: nat)
    requires r >= 1 && j < w <= n && FailedUpTo(s, n, w, key, j)
    ensures FailedUpTo(Step(s, w, r, Fail(j)), n, w, key, j + 1)
  {
  }

  lemma {:induction false} FailuresProper(key: string, j: nat, keys: iset<string>, always: bool)
    requires key in keys
    ensures AllProper(Failures(key, j), keys, always)
  {
    if j > 0 { FailuresProper(key, j - 1, keys, always); }
  }

  /** Then the first `j` of them fail. */
  lemma {:induction false} AfterFailures(n: nat, w: nat, r: nat, key: string, j: nat)
    requires r >= 1 && j <= w <= n
    ensures FailedUpTo(Run(Empty(n), w, r, Failures(key, j)), n, w, key, j)
  {
    if j == 0 {
      FirstWrite(n, w, r, key, "v");
    } else {
      AfterFailures(n, w, r, key, j - 1);
      OneFails(Run(Empty(n), w, r, Failures(key, j - 1)), n, w, r, key, j - 1);
      RunAppend(Empty(n), w, r, Failures(key, j - 1), Fail(j - 1));
    }
  }

  lemma {:induction false} RankAfter(nodes: seq<Node>, w: nat, i: nat)
    requires w <= |nodes| && i <= |nodes| && forall j :: 0 <= j < |nodes| ==> (nodes[j].alive <==> j >= w)
    ensures Rank(nodes, i) == if i < w then 0 else i - w
  {
    if i > 0 { RankAfter(nodes, w, i - 1); }
  }

  /** The quorums overlap or reads go stale: with `w + r <= n` a write followed by the failure of
      the nodes it reached leaves a read that meets its quorum without the value. */
  lemma WithoutOverlap(n: nat, w: nat, r: nat, key: string)
    requires r >= 1 && w + r <= n
    ensures !ReadsLatest(n, w, r, Failures(key, w), key)
  {
    AfterFailures(n, w, r, key, w);
    var s := Run(Empty(n), w, r, Failures(key, w));
    RankAfter(s.nodes, w, n);
    var f := First(s.nodes, 0);
    assert f >= w && Lookup(s.nodes[f].redis, key) == None;
  }

  /** A key written where another one keeps its clock is lost at that one's next write. */
  lemma ClockOverwrites(n: nat, w: nat, r: nat, key: string)
    requires r >= 1 && 1 <= w <= n && r <= n
    ensures !ReadsLatest(n, w, r, [WriteRequest(ClockKey(key), "v"), WriteRequest(key, "v")], ClockKey(key))
  {
    var es, es1 := [WriteRequest(ClockKey(key), "v"), WriteRequest(key, "v")], [WriteRequest(ClockKey(key), "v")];
    FirstWrite(n, w, r, ClockKey(key), "v");
    var s1 := Run(Empty(n), w, r, es1);
    RunAppend(Empty(n), w, r, es1, WriteRequest(key, "v"));
    assert es1 + [WriteRequest(key, "v")] == es;
    RankAfter(s1.nodes, 0, n);
    var s2 := Step(s1, w, r, WriteRequest(key, "v"));
    ClockKeyDiffers(key);
    assert s2.nodes[0] == WriteAt(s1.nodes, w, key, "v", 0) == Stored(s1.nodes[0], key, "v");
    assert forall i :: 0 <= i < n ==> s2.nodes[i] == WriteAt(s1.nodes, w, key, "v", i) && s2.nodes[i].alive;
    RankAfter(s2.nodes, 0, n);
    assert First(s2.nodes, 0) == 0;
    assert Latest(s2, ClockKey(key)) == Some(Text("v"));
    assert Lookup(s2.nodes[0].redis, ClockKey(key)) == Some(Clock(Some(Tick(s1.nodes[0]))));
  }

  function Unflushed(key: string): seq<Event> { [Fail(0), WriteRequest(key, "v"), Rejoin(0, false)] }

  /** A node that comes back before its hints are written answers reads without the value, for every
      write quorum that leaves it out, even though the quorums may overlap. */
  lemma UnflushedIsStale(n: nat, w: nat, r: nat, key: string)
    requires 1 <= r <= n && w < n
    ensures !ReadsLatest(n, w, r, Unflushed(key), key)
  {
    UnflushedState(n, w, r, key);
  }

  lemma UnflushedState(n: nat, w: nat, r: nat, key: string)
    requires 1 <= r <= n && w < n
    ensures var s := Run(Empty(n), w, r, Unflushed(key));
      && |s.nodes| == n && Alive(s.nodes) == n && s.last == map[key := "v"]
      && Lookup(s.nodes[First(s.nodes, 0)].redis, key) == None
  {
    var s0, es := Empty(n), Unflushed(key);
    var s1 := Step(s0, w, r, es[0]);
    var s2 := Step(s1, w, r, es[1]);
    var s3 := Step(s2, w, r, es[2]);
    RunAppend(s0, w, r, [], es[0]);
    RunAppend(s0, w, r, [es[0]], es[1]);
    RunAppend(s0, w, r, [es[0], es[1]], es[2]);
    assert [] + [es[0]] == [es[0]] && [es[0]] + [es[1]] == [es[0], es[1]] && [es[0], es[1]] + [es[2]] == es;
    RankAfter(s1.nodes, 1, n);
    assert forall i :: 0 <= i < n ==> s2.nodes[i] == WriteAt(s1.nodes, w, key, "v", i);
    assert s2.nodes[0] == Hinted(s1.nodes[0], key, "v") && s3.nodes[0].redis == map[];
    RankAfter(s3.nodes, 0, n);
    assert First(s3.nodes, 0) == 0 && Lookup(s3.nodes[0].redis, key) == None;
  }

  // --- Main results -----------------------------------------------------------------------------

  lemma ReadsFail(n: nat, w: nat, r: nat, es: seq<Event>, k: string)
    requires r > n
    ensures ReadsLatest(n, w, r, es, k)
  {
    RunSize(n, w, r, es);
    RankBelow(Run(Empty(n), w, r, es).nodes, n);
  }

  lemma RunSize(n: nat, w: nat, r: nat, es: seq<Event>)
    requires r >= 1
    ensures |Run(Empty(n), w, r, es).nodes| == n
  {
  }

  lemma NothingWritten(n: nat, w: nat, r: nat, es: seq<Event>, k: string)
    requires r >= 1 && w > n
    ensures ReadsLatest(n, w, r, es, k)
  {
    RunPristine(n, w, r, es);
  }

  /** Only what makes writes or reads impossible, or no client keys, makes the quorums irrelevant. */
  predicate Trivially(n: nat, w: nat, r: nat) { w > n || r > n }

  lemma TriviallyConsistent(n: nat, w: nat, r: nat, keys: iset<string>, always: bool)
    requires r >= 1 && (Trivially(n, w, r) || keys == iset{})
    ensures Consistent(n, w, r, keys, always)
  {
    forall es: seq<Event>, k: string | k in keys && AllProper(es, keys, always) ensures ReadsLatest(n, w, r, es, k) {
      if r > n { ReadsFail(n, w, r, es, k); } else { NothingWritten(n, w, r, es, k); }
    }
  }

  /** What goes wrong whether or not nodes come back with their hints. */
  lemma Inconsistent(n: nat, w: nat, r: nat, keys: iset<string>, always: bool)
    requires r >= 1 && !Trivially(n, w, r) && keys != iset{} && (w + r <= n || !Separate(keys))
    ensures !Consistent(n, w, r, keys, always)
  {
    if w + r <= n {
      var k :| k in keys;
      WithoutOverlap(n, w, r, k);
      FailuresProper(k, w, keys, always);
    } else {
      var k :| k in keys && ClockKey(k) in keys;
      ClockOverwrites(n, w, r, k);
      assert AllProper([WriteRequest(ClockKey(k), "v"), WriteRequest(k, "v")], keys, always);
    }
  }

  /** If nodes come back with their hints: every read that meets its quorum answers the last value
      written, in every run, if and only if W + R > N and no key is where another keeps its clock. */
  lemma ConsistentIffQuorumsOverlap(n: nat, w: nat, r: nat, keys: iset<string>)
    requires r >= 1
    ensures Consistent(n, w, r, keys, true) <==> keys == iset{} || Trivially(n, w, r) || (w + r > n && Separate(keys))
  {
    if keys == iset{} || Trivially(n, w, r) {
      TriviallyConsistent(n, w, r, keys, true);
    } else if w + r > n && Separate(keys) {
      forall es: seq<Event>, k: string | k in keys && AllProper(es, keys, true) ensures ReadsLatest(n, w, r, es, k) {
        RunOk(n, w, r, es, keys);
        ReadIsLatest(Run(Empty(n), w, r, es), w, r, k, keys);
      }
    } else {
      Inconsistent(n, w, r, keys, true);
    }
  }

  /** If they may come back without them, and have them written later or never: if and only if, in
      place of W + R > N, a write needs every node. */
  lemma ConsistentUnflushedIff(n: nat, w: nat, r: nat, keys: iset<string>)
    requires r >= 1
    ensures Consistent(n, w, r, keys, false) <==> keys == iset{} || Trivially(n, w, r) || (w == n && Separate(keys))
  {
    if keys == iset{} || Trivially(n, w, r) {
      TriviallyConsistent(n, w, r, keys, false);
    } else if w == n && Separate(keys) {
      forall es: seq<Event>, k: string | k in keys && AllProper(es, keys, false) ensures ReadsLatest(n, w, r, es, k) {
        RunNeedingAll(n, w, r, es, keys);
        ReadIsLatest(Run(Empty(n), w, r, es), w, r, k, keys);
      }
    } else if w < n {
      var k :| k in keys;
      UnflushedIsStale(n, w, r, k);
      assert AllProper(Unflushed(k), keys, false);
    } else {
      Inconsistent(n, w, r, keys, false);
    }
  }

  /** Three nodes, W = R = 2: the quorums overlap, and a node that is back without its hints answers
      without the value. */
  lemma UnflushedRejoinIsStale()
    ensures Latest(Run(Empty(3), 2, 2, Unflushed("k")), "k") == Some(Text("v"))
    ensures Read(Run(Empty(3), 2, 2, Unflushed("k")).nodes, 2, "k").1 != Answer(Some(Text("v")))
  {
    UnflushedState(3, 2, 2, "k");
  }
}
