/** The world around the connection manager: outcomes of awaits, and what other tasks do meanwhile. */
module ChatOutside {
  import opened ChatConnections

  lemma RunOne(reg: Registry, max: int, e: Change)
    ensures Run(reg, max, [e]) == Apply(reg, max, e)
  {
    assert [e][..0] == [];
  }

  /** What happens outside: the outcome of each await and what other tasks change during it. */
  class Outside {
    const succeeds: nat -> bool
    const meanwhile: nat -> seq<Change>
    var at: nat

    constructor (succeeds: nat -> bool, meanwhile: nat -> seq<Change>)
      ensures this.succeeds == succeeds && this.meanwhile == meanwhile && at == 0
    {
      this.succeeds, this.meanwhile, at := succeeds, meanwhile, 0;
    }

    /** What other tasks change during the awaits from number `i` up to but not including `j`. */
    ghost function Between(i: nat, j: nat): seq<Change>
      requires i <= j
    {
      if i == j then [] else Between(i, j - 1) + meanwhile(j - 1)
    }

    /** How many of these awaits succeed. */
    function Successes(i: nat, j: nat): nat
      requires i <= j
    {
      if i == j then 0 else Successes(i, j - 1) + if succeeds(j - 1) then 1 else 0
    }

    /** Another task made this change during one of these awaits. */
    ghost predicate Happened(e: Change, i: nat, j: nat) { exists k: nat :: i <= k < j && e in meanwhile(k) }

    lemma {:induction false} BetweenHappened(e: Change, i: nat, j: nat)
      requires i <= j && e in Between(i, j)
      ensures Happened(e, i, j)
    {
      if e in meanwhile(j - 1) { assert i <= j - 1 < j; } else { BetweenHappened(e, i, j - 1); }
    }

    lemma RunNext(after: Registry, reg: Registry, max: int, i: nat)
      requires after == Run(reg, max, meanwhile(i))
      ensures after == Run(reg, max, Between(i, i + 1))
    {
      assert Between(i, i) + meanwhile(i) == meanwhile(i);
    }

    lemma RunTwo(after: Registry, reg: Registry, max: int, i: nat)
      requires after == Run(Run(reg, max, meanwhile(i)), max, meanwhile(i + 1))
      ensures after == Run(reg, max, Between(i, i + 2))
    {
      assert Between(i, i) + meanwhile(i) == meanwhile(i);
      RunConcat(reg, max, meanwhile(i), meanwhile(i + 1));
    }
  }

  /** Every change is another task's or drops one of these connections. */
  ghost predicate Accounted(outside: Outside, changes: seq<Change>, failed: set<Connection>, i: nat, j: nat) {
    forall e :: e in changes ==> (exists c :: c in failed && e == Drop(c.socket)) || outside.Happened(e, i, j)
  }

  lemma AccountedMore(outside: Outside, changes: seq<Change>, failed: set<Connection>, i: nat, j: nat,
      more: seq<Change>, j': nat)
    requires Accounted(outside, changes, failed, i, j) && j <= j' && Accounted(outside, more, failed, i, j')
    ensures Accounted(outside, changes + more, failed, i, j')
  {
  }

  lemma EarlierAccounted(outside: Outside, changes: seq<Change>, failed: set<Connection>, i: nat, i': nat, j: nat)
    requires i <= i' && Accounted(outside, changes, failed, i', j)
    ensures Accounted(outside, changes, failed, i, j)
  {
  }

  lemma BetweenAccounted(outside: Outside, failed: set<Connection>, i: nat, j: nat)
    requires i <= j
    ensures Accounted(outside, outside.Between(i, j), failed, i, j)
  {
    forall e | e in outside.Between(i, j) ensures outside.Happened(e, i, j) { outside.BetweenHappened(e, i, j); }
  }

  lemma DropAccounted(outside: Outside, failed: set<Connection>, c: Connection, i: nat, j: nat, j': nat)
    requires i <= j <= j' && c in failed
    ensures Accounted(outside, [Drop(c.socket)] + outside.Between(j, j'), failed, i, j')
  {
    BetweenAccounted(outside, failed, j, j');
  }

  /** `sent` of these succeeded and `disconnected` failed; each send was one await, from `start` on. */
  ghost predicate SentTo(outside: Outside, targets: set<Connection>, x: Exclusion, start: nat, sent: nat,
      disconnected: set<Connection>) {
    && disconnected <= targets && (forall c :: c in disconnected ==> !Excluded(x, c))
    && sent + |Skipped(targets, x)| + |disconnected| == |targets|
    && sent == outside.Successes(start, start + sent + |disconnected|)
  }

  // --- Counting a loop of sends -----------------------------------------------------------------

  datatype Exclusion = Nobody | User(user: string) | TheSocket(socket: Socket)

  predicate Excluded(x: Exclusion, c: Connection) {
    match x
    case Nobody => false
    case User(u) => c.user == u
    case TheSocket(s) => c.socket == s
  }

  function Skipped(targets: set<Connection>, x: Exclusion): set<Connection> { set c | c in targets && Excluded(x, c) }

  /** So far: those not in `todo` have been skipped, sent to, or found disconnected. */
  predicate Tally(targets: set<Connection>, x: Exclusion, todo: set<Connection>, disconnected: set<Connection>,
      sent: nat) {
    && todo <= targets && disconnected <= targets - todo && (forall c :: c in disconnected ==> !Excluded(x, c))
    && sent + |Skipped(targets - todo, x)| + |disconnected| + |todo| == |targets|
  }

  lemma TallySkip(targets: set<Connection>, x: Exclusion, todo: set<Connection>, disconnected: set<Connection>,
      sent: nat, c: Connection)
    requires Tally(targets, x, todo, disconnected, sent) && c in todo && Excluded(x, c)
    ensures Tally(targets, x, todo - {c}, disconnected, sent)
    ensures |Skipped(targets - (todo - {c}), x)| == |Skipped(targets - todo, x)| + 1
  {
    assert Skipped(targets - (todo - {c}), x) == Skipped(targets - todo, x) + {c};
  }

  lemma TallySend(targets: set<Connection>, x: Exclusion, todo: set<Connection>, disconnected: set<Connection>,
      sent: nat, c: Connection)
    requires Tally(targets, x, todo, disconnected, sent) && c in todo && !Excluded(x, c)
    ensures Tally(targets, x, todo - {c}, disconnected, sent + 1)
        && Tally(targets, x, todo - {c}, disconnected + {c}, sent)
    ensures |Skipped(targets - (todo - {c}), x)| == |Skipped(targets - todo, x)|
  {
    assert Skipped(targets - (todo - {c}), x) == Skipped(targets - todo, x);
  }
}
