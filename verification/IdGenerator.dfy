/** The Snowflake-like generator: milliseconds since an epoch, a sequence number, random bits. */
module IdGenerator {
  import opened Bits

  datatype Layout = Layout(epoch: int, sequenceBits: nat, randomBits: nat)

  const DEFAULT := Layout(1704067200000, 12, 10)

  datatype State = State(last: int, sequence: nat)

  const INITIAL := State(-1, 0)

  /** What one call gets from outside: the clock, the first reading past the last timestamp (used
      only if the call has to wait for it), and random bits. */
  datatype Inputs = Inputs(now: int, later: int, random: nat)

  predicate Waits(l: Layout, g: State, c: Inputs) {
    c.now <= g.last && Low(g.sequence + 1, l.sequenceBits) == 0
  }

  predicate Fits(l: Layout, g: State, c: Inputs) { Waits(l, g, c) ==> c.later > g.last }

  function Next(l: Layout, g: State, c: Inputs): State {
    if c.now > g.last then State(c.now, 0)
    else if Waits(l, g, c) then State(c.later, 0)
    else State(g.last, Low(g.sequence + 1, l.sequenceBits))
  }

  /** Three fields in one number. */
  function Join(l: Layout, timestamp: int, sequence: nat, random: nat): int {
    ShiftLeft(ShiftLeft(timestamp - l.epoch, l.sequenceBits) + sequence, l.randomBits) + random
  }

  function Id(l: Layout, g: State, random: nat): int { Join(l, g.last, g.sequence, Low(random, l.randomBits)) }

  function TimestampOf(l: Layout, id: int): int { ShiftRight(ShiftRight(id, l.randomBits), l.sequenceBits) + l.epoch }

  function SequenceOf(l: Layout, id: int): nat { Low(ShiftRight(id, l.randomBits), l.sequenceBits) }

  function RandomOf(l: Layout, id: int): nat { Low(id, l.randomBits) }

  // --- One ID -----------------------------------------------------------------------------------

  /** The fields do not overlap, whatever the time, even one before the epoch: their `|` joins them. */
  lemma OrJoins(l: Layout, t: int, q: nat, r: nat)
    requires q < Pow2(l.sequenceBits) && r < Pow2(l.randomBits)
    ensures Or(Or(ShiftLeft(t - l.epoch, l.sequenceBits + l.randomBits), ShiftLeft(q, l.randomBits)), r)
        == Join(l, t, q, r)
  {
    var x := t - l.epoch;
    ShiftOfSum(x, q, l.sequenceBits, l.randomBits);
    assert ShiftLeft(q, l.randomBits) < Pow2(l.sequenceBits + l.randomBits) && ShiftLeft(q, l.randomBits) >= 0 by {
      SumFitsIff(q, 0, l.sequenceBits, l.randomBits);
    }
    OrIsSum(x, ShiftLeft(q, l.randomBits), l.sequenceBits + l.randomBits);
    OrIsSum(ShiftLeft(x, l.sequenceBits) + q, r, l.randomBits);
  }

  lemma FieldsRecovered(l: Layout, t: int, q: nat, r: nat)
    requires q < Pow2(l.sequenceBits) && r < Pow2(l.randomBits)
    ensures var id := Join(l, t, q, r); TimestampOf(l, id) == t && SequenceOf(l, id) == q && RandomOf(l, id) == r
  {
    FieldsOfSum(ShiftLeft(t - l.epoch, l.sequenceBits) + q, r, l.randomBits);
    FieldsOfSum(t - l.epoch, q, l.sequenceBits);
  }

  /** An ID fits `b + sequenceBits + randomBits` bits exactly when the time since the epoch fits `b`. */
  lemma FitsIff(l: Layout, t: int, q: nat, r: nat, b: nat)
    requires q < Pow2(l.sequenceBits) && r < Pow2(l.randomBits)
    ensures 0 <= Join(l, t, q, r) < Pow2(b + l.sequenceBits + l.randomBits) <==> 0 <= t - l.epoch < Pow2(b)
    ensures Join(l, t, q, r) >= 0 <==> t >= l.epoch
  {
    SumFitsIff(t - l.epoch, q, b, l.sequenceBits);
    SumFitsIff(ShiftLeft(t - l.epoch, l.sequenceBits) + q, r, b + l.sequenceBits, l.randomBits);
  }

  /** The layout the service uses: 63 bits hold 41 bits of milliseconds. */
  lemma DefaultFitsIff(t: int, q: nat, r: nat)
    requires q < 4096 && r < 1024
    ensures var id := Join(DEFAULT, t, q, r);
      && (0 <= id < 0x8000_0000_0000_0000 <==> 0 <= t - DEFAULT.epoch < 0x200_0000_0000)
      && (id >= 0 <==> t >= DEFAULT.epoch)
  {
    Powers();
    FitsIff(DEFAULT, t, q, r, 41);
  }

  /** Everything issued up to the state `g` is below this. */
  function Bound(l: Layout, g: State): int {
    ShiftLeft(ShiftLeft(g.last - l.epoch, l.sequenceBits) + g.sequence + 1, l.randomBits)
  }

  lemma NextIdWithin(l: Layout, g: State, c: Inputs)
    requires g.sequence < Pow2(l.sequenceBits) && Fits(l, g, c)
    ensures var g' := Next(l, g, c);
      Bound(l, g) <= Id(l, g', c.random) < Bound(l, g') && g'.sequence < Pow2(l.sequenceBits)
  {
    NextState(l, g, c);
    IdWithin(l, g, Next(l, g, c), c.random);
  }

  lemma IdWithin(l: Layout, g: State, g': State, random: nat)
    requires Earlier(l, g, g')
    ensures Bound(l, g) <= Id(l, g', random) < Bound(l, g')
  {
    var x, x', k := g.last - l.epoch, g'.last - l.epoch, l.sequenceBits;
    if x < x' { Carry(x, g.sequence, x', g'.sequence, k); }
    var h, h' := ShiftLeft(x, k) + g.sequence + 1, ShiftLeft(x', k) + g'.sequence;
    if h < h' { Carry(h, 0, h', Low(random, l.randomBits), l.randomBits); }
    Carry(h', Low(random, l.randomBits), h' + 1, 0, l.randomBits);
  }

  // --- Runs -------------------------------------------------------------------------------------

  /** The state after the first `k` calls. */
  function After(l: Layout, cs: seq<Inputs>, k: nat): State
    requires k <= |cs|
  {
    if k == 0 then INITIAL else Next(l, After(l, cs, k - 1), cs[k - 1])
  }

  predicate FitsAt(l: Layout, cs: seq<Inputs>, k: nat)
    requires k < |cs|
  {
    Fits(l, After(l, cs, k), cs[k])
  }

  predicate Proper(l: Layout, cs: seq<Inputs>) { forall k :: 0 <= k < |cs| ==> FitsAt(l, cs, k) }

  lemma NextOf(l: Layout, cs: seq<Inputs>, k: nat)
    requires Proper(l, cs) && k < |cs| && After(l, cs, k).sequence < Pow2(l.sequenceBits)
    ensures var g, g' := After(l, cs, k), After(l, cs, k + 1);
      && g'.sequence < Pow2(l.sequenceBits) && g'.last >= cs[k].now && g'.last >= g.last
      && g'.sequence == if g'.last == g.last then g.sequence + 1 else 0
  {
    assert FitsAt(l, cs, k);
    NextState(l, After(l, cs, k), cs[k]);
  }

  /** What call `k` returns. */
  function IdAt(l: Layout, cs: seq<Inputs>, k: nat): int
    requires k < |cs|
  {
    Id(l, After(l, cs, k + 1), cs[k].random)
  }

  lemma NextState(l: Layout, g: State, c: Inputs)
    requires g.sequence < Pow2(l.sequenceBits) && Fits(l, g, c)
    ensures var g' := Next(l, g, c);
      && g'.sequence < Pow2(l.sequenceBits) && g'.last >= c.now && g'.last >= g.last
      && g'.sequence == if g'.last == g.last then g.sequence + 1 else 0
  {
    if g.sequence + 1 < Pow2(l.sequenceBits) {
      LowOfSmall(g.sequence + 1, l.sequenceBits);
    } else {
      LowOfPow2(l.sequenceBits);
    }
  }

  lemma {:induction false} AfterBounded(l: Layout, cs: seq<Inputs>, k: nat)
    requires Proper(l, cs) && k <= |cs|
    ensures After(l, cs, k).sequence < Pow2(l.sequenceBits)
  {
    if k > 0 {
      AfterBounded(l, cs, k - 1);
      NextOf(l, cs, k - 1);
    }
  }

  /** Within one millisecond the sequence counts the calls. */
  lemma {:induction false} LaterState(l: Layout, cs: seq<Inputs>, j: nat, k: nat)
    requires Proper(l, cs) && j <= k <= |cs|
    ensures var g, g' := After(l, cs, j), After(l, cs, k);
      g.last <= g'.last && (g.last == g'.last ==> g'.sequence == g.sequence + (k - j))
  {
    if j < k {
      LaterState(l, cs, j, k - 1);
      AfterBounded(l, cs, k - 1);
      NextOf(l, cs, k - 1);
    }
  }

  /** `g` is an earlier state than `g'`, both within the width of the sequence. */
  predicate Earlier(l: Layout, g: State, g': State) {
    && g.sequence < Pow2(l.sequenceBits) && g'.sequence < Pow2(l.sequenceBits)
    && (g.last < g'.last || (g.last == g'.last && g.sequence < g'.sequence))
  }

  lemma StatesAdvance(l: Layout, cs: seq<Inputs>, j: nat, k: nat)
    requires Proper(l, cs) && j < k <= |cs|
    ensures Earlier(l, After(l, cs, j), After(l, cs, k))
  {
    LaterState(l, cs, j, k);
    AfterBounded(l, cs, j);
    AfterBounded(l, cs, k);
  }

  /** Whatever the clock reads, backwards jumps included, every ID is greater than those before it. */
  lemma IdsIncrease(l: Layout, cs: seq<Inputs>, j: nat, k: nat)
    requires Proper(l, cs) && j < k < |cs|
    ensures IdAt(l, cs, j) < IdAt(l, cs, k)
  {
    StatesAdvance(l, cs, j + 1, k + 1);
    LaterIdIsGreater(l, After(l, cs, j + 1), cs[j].random, After(l, cs, k + 1), cs[k].random);
  }

  lemma LaterIdIsGreater(l: Layout, g: State, random: nat, g': State, random': nat)
    requires Earlier(l, g, g')
    ensures Id(l, g, random) < Id(l, g', random')
  {
    var x, x', k := g.last - l.epoch, g'.last - l.epoch, l.sequenceBits;
    if x < x' { Carry(x, g.sequence, x', g'.sequence, k); }
    Carry(ShiftLeft(x, k) + g.sequence, Low(random, l.randomBits),
          ShiftLeft(x', k) + g'.sequence, Low(random', l.randomBits), l.randomBits);
  }

  lemma IdFields(l: Layout, cs: seq<Inputs>, k: nat)
    requires Proper(l, cs) && k < |cs|
    ensures var id, g := IdAt(l, cs, k), After(l, cs, k + 1);
            TimestampOf(l, id) == g.last >= cs[k].now && SequenceOf(l, id) == g.sequence
  {
    AfterBounded(l, cs, k);
    NextOf(l, cs, k);
    FieldsRecovered(l, After(l, cs, k + 1).last, After(l, cs, k + 1).sequence, Low(cs[k].random, l.randomBits));
  }

  /** The timestamp of the ID before, -1 if there is none. */
  function LastTimestamp(l: Layout, cs: seq<Inputs>, k: nat): int
    requires k <= |cs|
  {
    if k == 0 then -1 else TimestampOf(l, IdAt(l, cs, k - 1))
  }

  lemma LastTimestampIs(l: Layout, cs: seq<Inputs>, k: nat)
    requires Proper(l, cs) && k <= |cs|
    ensures LastTimestamp(l, cs, k) == After(l, cs, k).last
    ensures k > 0 ==> SequenceOf(l, IdAt(l, cs, k - 1)) == After(l, cs, k).sequence
  {
    if k > 0 { IdFields(l, cs, k - 1); }
  }

  /** An ID carries the present reading of the clock if that is past the timestamp before, with the
      sequence starting at 0. Otherwise it carries the timestamp before and the next number, or, if the
      numbers are used up, the reading that was waited for. */
  lemma TimestampIs(l: Layout, cs: seq<Inputs>, k: nat)
    requires Proper(l, cs) && k < |cs|
    ensures var t, q := TimestampOf(l, IdAt(l, cs, k)), SequenceOf(l, IdAt(l, cs, k));
      var last, number := LastTimestamp(l, cs, k), if k == 0 then 0 else SequenceOf(l, IdAt(l, cs, k - 1));
      if cs[k].now > last then t == cs[k].now && q == 0
      else if number + 1 < Pow2(l.sequenceBits) then t == last && q == number + 1
      else t == cs[k].later && q == 0
  {
    LastTimestampIs(l, cs, k);
    LastTimestampIs(l, cs, k + 1);
    AfterBounded(l, cs, k);
    NextFields(l, After(l, cs, k), cs[k]);
  }

  lemma NextFields(l: Layout, g: State, c: Inputs)
    requires g.sequence < Pow2(l.sequenceBits)
    ensures Next(l, g, c) == if c.now > g.last then State(c.now, 0)
                             else if g.sequence + 1 < Pow2(l.sequenceBits) then State(g.last, g.sequence + 1)
                             else State(c.later, 0)
  {
    if g.sequence + 1 < Pow2(l.sequenceBits) {
      LowOfSmall(g.sequence + 1, l.sequenceBits);
    } else {
      LowOfPow2(l.sequenceBits);
    }
  }

  /** Every ID carries a reading made for its own call or an earlier one, unless the clock has not
      reached the start yet. */
  lemma {:induction false} TimestampWasRead(l: Layout, cs: seq<Inputs>, k: nat)
    requires Proper(l, cs) && k < |cs|
    ensures var t := TimestampOf(l, IdAt(l, cs, k));
            t == -1 || exists j :: 0 <= j <= k && (t == cs[j].now || t == cs[j].later)
  {
    TimestampIs(l, cs, k);
    if k > 0 { TimestampWasRead(l, cs, k - 1); }
  }

  /** The lowest bits are the random ones that were given. */
  lemma RandomIs(l: Layout, cs: seq<Inputs>, k: nat)
    requires Proper(l, cs) && k < |cs|
    ensures RandomOf(l, IdAt(l, cs, k)) == cs[k].random % Pow2(l.randomBits)
  {
    AfterBounded(l, cs, k + 1);
    FieldsRecovered(l, After(l, cs, k + 1).last, After(l, cs, k + 1).sequence, Low(cs[k].random, l.randomBits));
    LowIsRemainder(cs[k].random, l.randomBits);
  }

  lemma SameLast(l: Layout, cs: seq<Inputs>, j: nat, k: nat)
    requires Proper(l, cs) && j <= k <= |cs| && After(l, cs, j).last == After(l, cs, k).last
    ensures After(l, cs, k).sequence == After(l, cs, j).sequence + (k - j) && k - j < Pow2(l.sequenceBits)
  {
    LaterState(l, cs, j, k);
    AfterBounded(l, cs, k);
  }

  /** Calls whose IDs carry the same millisecond are numbered one after the other. */
  lemma SameMillisecond(l: Layout, cs: seq<Inputs>, j: nat, k: nat)
    requires Proper(l, cs) && j <= k < |cs| && TimestampOf(l, IdAt(l, cs, j)) == TimestampOf(l, IdAt(l, cs, k))
    ensures SequenceOf(l, IdAt(l, cs, k)) == SequenceOf(l, IdAt(l, cs, j)) + (k - j) && k - j < Pow2(l.sequenceBits)
  {
    SameTime(l, cs, j, k, IdAt(l, cs, j), IdAt(l, cs, k));
  }

  lemma SameTime(l: Layout, cs: seq<Inputs>, j: nat, k: nat, id: int, id': int)
    requires Proper(l, cs) && j <= k < |cs| && id == IdAt(l, cs, j) && id' == IdAt(l, cs, k)
    requires TimestampOf(l, id) == TimestampOf(l, id')
    ensures SequenceOf(l, id') == SequenceOf(l, id) + (k - j) && k - j < Pow2(l.sequenceBits)
  {
    IdFields(l, cs, j);
    IdFields(l, cs, k);
    SameLast(l, cs, j + 1, k + 1);
  }

  ghost function CallsAt(l: Layout, cs: seq<Inputs>, t: int): set<nat> {
    set k: nat | k < |cs| && TimestampOf(l, IdAt(l, cs, k)) == t
  }

  lemma {:induction false} WithinRange(s: set<nat>, lo: nat, n: nat)
    requires forall k :: k in s ==> lo <= k < lo + n
    ensures |s| <= n
  {
    if n > 0 {
      WithinRange(s - {lo + n - 1}, lo, n - 1);
    } else {
      assert s == {};
    }
  }

  /** At most 2^`sequenceBits` IDs carry the same millisecond. */
  lemma AtMostPerMillisecond(l: Layout, cs: seq<Inputs>, t: int)
    requires Proper(l, cs)
    ensures |CallsAt(l, cs, t)| <= Pow2(l.sequenceBits)
  {
    var s := CallsAt(l, cs, t);
    if k0 :| k0 in s {
      var lo := Least(s, k0);
      forall k | k in s ensures lo <= k < lo + Pow2(l.sequenceBits) {
        SameMillisecond(l, cs, lo, k);
      }
      WithinRange(s, lo, Pow2(l.sequenceBits));
    }
  }

  /** At most 4096 with the layout the service uses. */
  lemma DefaultPerMillisecond(cs: seq<Inputs>, t: int)
    requires Proper(DEFAULT, cs)
    ensures |CallsAt(DEFAULT, cs, t)| <= 4096
  {
    Powers();
    AtMostPerMillisecond(DEFAULT, cs, t);
  }

  lemma {:induction false} Least(s: set<nat>, k: nat) returns (lo: nat)
    requires k in s
    ensures lo in s && forall j :: j in s ==> lo <= j
  {
    if j :| j in s && j < k {
      lo := Least(s, j);
    } else {
      lo := k;
    }
  }

  /** A result is computed from the fields after the lock has been released. If another call has
      changed the sequence by then, the two results are equal exactly when the timestamps and the
      random bits are. */
  lemma LateResultRepeatsIff(l: Layout, g: State, random: nat, g': State, random': nat)
    requires g'.sequence < Pow2(l.sequenceBits)
    ensures Join(l, g.last, g'.sequence, Low(random, l.randomBits)) == Id(l, g', random')
       <==> g.last == g'.last && Low(random, l.randomBits) == Low(random', l.randomBits)
  {
    FieldsRecovered(l, g.last, g'.sequence, Low(random, l.randomBits));
    FieldsRecovered(l, g'.last, g'.sequence, Low(random', l.randomBits));
  }

  // --- The generator ----------------------------------------------------------------------------

  ghost predicate Passes(readings: nat -> int, from: nat, t: int) { exists m :: m >= from && readings(m) > t }

  class Clock {
    const readings: nat -> int
    var at: nat

    /** Time goes on: every instant is passed at some point. */
    ghost predicate GoesOn() { forall from, t :: Passes(readings, from, t) }

    constructor (readings: nat -> int)
      ensures this.readings == readings && at == 0
    {
      this.readings, at := readings, 0;
    }

    method CurrentMillis() returns (t: int)
      modifies this
      ensures t == readings(old(at)) && at == old(at) + 1
    {
      t := readings(at);
      at := at + 1;
    }
  }

  class SnowflakeGenerator {
    const layout: Layout
    const clock: Clock
    var lastTimestamp: int
    var sequence: nat

    constructor (layout: Layout, clock: Clock)
      ensures this.layout == layout && this.clock == clock && View() == INITIAL
    {
      this.layout, this.clock, lastTimestamp, sequence := layout, clock, -1, 0;
    }

    function View(): State reads this { State(lastTimestamp, sequence) }

    /** The first reading past `t`. */
    method WaitNextMillis(t: int) returns (timestamp: int)
      requires clock.GoesOn()
      modifies clock
      ensures clock.at > old(clock.at) && timestamp == clock.readings(clock.at - 1) > t
      ensures forall m :: old(clock.at) <= m < clock.at - 1 ==> clock.readings(m) <= t
    {
      assert Passes(clock.readings, clock.at, t);
      ghost var end :| end >= clock.at && clock.readings(end) > t;
      timestamp := clock.CurrentMillis();
      while timestamp <= t
        invariant old(clock.at) < clock.at <= end + 1 && timestamp == clock.readings(clock.at - 1)
        invariant forall m :: old(clock.at) <= m < clock.at - 1 ==> clock.readings(m) <= t
        decreases end + 1 - clock.at
      {
        timestamp := clock.CurrentMillis();
      }
    }

    /** The part of a call that holds the lock. `c` is what the call got from outside. */
    method Advance(random: nat) returns (timestamp: int, ghost c: Inputs)
      requires clock.GoesOn()
      modifies this, clock
      ensures c.now == clock.readings(old(clock.at)) && c.random == random && Fits(layout, old(View()), c)
      ensures Waits(layout, old(View()), c) ==>
        && clock.at > old(clock.at) + 1 && c.later == clock.readings(clock.at - 1)
        && forall m :: old(clock.at) < m < clock.at - 1 ==> clock.readings(m) <= old(lastTimestamp)
      ensures View() == Next(layout, old(View()), c) && timestamp == lastTimestamp
          && sequence < Pow2(layout.sequenceBits)
      ensures c.now > old(lastTimestamp) ==> timestamp == c.now && sequence == 0
    {
      timestamp := clock.CurrentMillis();
      c := Inputs(timestamp, lastTimestamp + 1, random);
      if timestamp < lastTimestamp { timestamp := lastTimestamp; }
      if timestamp == lastTimestamp {
        AndMask(sequence + 1, layout.sequenceBits);
        sequence := And(sequence + 1, Pow2(layout.sequenceBits) - 1);
        if sequence == 0 {
          timestamp := WaitNextMillis(lastTimestamp);
          c := c.(later := timestamp);
        }
      } else {
        sequence := 0;
      }
      lastTimestamp := timestamp;
    }

    method GenerateId(random: nat) returns (id: int, ghost c: Inputs)
      requires clock.GoesOn()
      modifies this, clock
      ensures c.now == clock.readings(old(clock.at)) && c.random == random && Fits(layout, old(View()), c)
      ensures View() == Next(layout, old(View()), c) && id == Id(layout, View(), random)
      ensures c.now > old(lastTimestamp) ==> TimestampOf(layout, id) == c.now && SequenceOf(layout, id) == 0
    {
      var timestamp;
      timestamp, c := Advance(random);
      AndMask(random, layout.randomBits);
      var bits := And(random, Pow2(layout.randomBits) - 1);
      OrJoins(layout, timestamp, sequence, bits);
      FieldsRecovered(layout, timestamp, sequence, bits);
      id := Or(Or(ShiftLeft(timestamp - layout.epoch, layout.sequenceBits + layout.randomBits),
                  ShiftLeft(sequence, layout.randomBits)), bits);
    }
  }
}
