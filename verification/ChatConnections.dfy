/**
 * The chat server's connections, indexed by user, by room and by socket. Tasks interleave at every
 * await; between two awaits a task joins or drops a connection in one piece.
 */
module ChatConnections {
  import opened Basics
  import opened Sums

  type Socket = nat

  datatype Connection = Connection(socket: Socket, user: string, device: string, room: string)

  type Index = map<string, set<Connection>>

  /** `accepted` belongs to the sockets: each can be accepted once only. */
  datatype Registry = Registry(users: Index, sockets: map<Socket, Connection>, rooms: Index, accepted: set<Socket>)

  const EMPTY := Registry(map[], map[], map[], {})

  datatype Change = Join(c: Connection) | Drop(socket: Socket)

  function Bucket(index: Index, key: string): set<Connection> { if key in index then index[key] else {} }

  function With(index: Index, key: string, c: Connection): Index { index[key := Bucket(index, key) + {c}] }

  /** A bucket that becomes empty is deleted. */
  function Without(index: Index, key: string, c: Connection): Index {
    if key !in index then index
    else if index[key] - {c} == {} then map k | k in index && k != key :: index[k]
    else index[key := index[key] - {c}]
  }

  /** The limit is checked only for a user who is connected already. */
  function Joined(reg: Registry, max: int, c: Connection): Registry {
    if c.socket in reg.accepted then reg
    else if c.user in reg.users && |reg.users[c.user]| >= max then reg.(accepted := reg.accepted + {c.socket})
    else Registered(reg, c)
  }

  function Registered(reg: Registry, c: Connection): Registry {
    Registry(With(reg.users, c.user, c), reg.sockets[c.socket := c], With(reg.rooms, c.room, c),
             reg.accepted + {c.socket})
  }

  function Dropped(reg: Registry, s: Socket): Registry {
    if s !in reg.sockets then reg
    else
      var c := reg.sockets[s];
      reg.(users := Without(reg.users, c.user, c), rooms := Without(reg.rooms, c.room, c),
           sockets := map t | t in reg.sockets && t != s :: reg.sockets[t])
  }

  function Apply(reg: Registry, max: int, e: Change): Registry {
    match e
    case Join(c) => Joined(reg, max, c)
    case Drop(s) => Dropped(reg, s)
  }

  function Run(reg: Registry, max: int, es: seq<Change>): Registry {
    if es == [] then reg else Apply(Run(reg, max, es[..|es| - 1]), max, es[|es| - 1])
  }

  // --- What every change keeps ------------------------------------------------------------------

  datatype Grouping = ByUser | ByRoom

  function KeyOf(g: Grouping, c: Connection): string { if g.ByUser? then c.user else c.room }

  /** The index groups these connections by their key, and has no empty bucket. */
  ghost predicate Groups(index: Index, conns: set<Connection>, g: Grouping) {
    && (forall c :: c in conns ==> c in Bucket(index, KeyOf(g, c)))
    && (forall k :: k in index ==> index[k] != {})
    && (forall k, c :: k in index && c in index[k] ==> c in conns && KeyOf(g, c) == k)
  }

  /** The part of the agreement that is about the sockets. */
  predicate SocketsOk(reg: Registry) {
    forall s :: s in reg.sockets ==> reg.sockets[s].socket == s && s in reg.accepted
  }

  ghost predicate Bounded(index: Index, max: int) { forall u :: u in index ==> |index[u]| <= Max(1, max) }

  /** The three indexes describe the same connections, and no user has more than the limit: one, if
      the limit is not positive. */
  ghost predicate Agree(reg: Registry, max: int) {
    && SocketsOk(reg)
    && Groups(reg.users, reg.sockets.Values, ByUser)
    && Groups(reg.rooms, reg.sockets.Values, ByRoom)
    && Bounded(reg.users, max)
  }

  lemma GroupsWith(index: Index, conns: set<Connection>, g: Grouping, c: Connection)
    requires Groups(index, conns, g)
    ensures Groups(With(index, KeyOf(g, c), c), conns + {c}, g)
  {
  }

  lemma GroupsWithout(index: Index, conns: set<Connection>, g: Grouping, c: Connection)
    requires Groups(index, conns, g)
    ensures Groups(Without(index, KeyOf(g, c), c), conns - {c}, g)
  {
  }

  lemma RegisterAgrees(reg: Registry, max: int, c: Connection, reg': Registry)
    requires Agree(reg, max) && c.socket !in reg.accepted && (c.user in reg.users ==> |reg.users[c.user]| < max)
    requires reg' == Registered(reg, c)
    ensures Agree(reg', max)
  {
    ValuesWith(reg.sockets, c.socket, c);
    GroupsWith(reg.users, reg.sockets.Values, ByUser, c);
    GroupsWith(reg.rooms, reg.sockets.Values, ByRoom, c);
    assert SocketsOk(reg');
    BoundedWith(reg.users, max, c.user, c);
  }

  lemma BoundedWith(index: Index, max: int, key: string, c: Connection)
    requires Bounded(index, max) && (key in index ==> |index[key]| < max)
    ensures Bounded(With(index, key, c), max)
  {
  }

  lemma ValuesWith(m: map<Socket, Connection>, s: Socket, c: Connection)
    requires s !in m
    ensures m[s := c].Values == m.Values + {c}
  {
    forall d | d in m.Values ensures d in m[s := c].Values {
      var t :| t in m && m[t] == d;
      assert m[s := c][t] == d;
    }
    assert m[s := c][s] == c;
  }

  lemma ValuesWithout(m: map<Socket, Connection>, s: Socket, rest: map<Socket, Connection>)
    requires s in m && (forall t :: t in m ==> m[t].socket == t) && rest == map t | t in m && t != s :: m[t]
    ensures rest.Values == m.Values - {m[s]}
  {
    forall d | d in m.Values && d != m[s] ensures d in rest.Values {
      var t :| t in m && m[t] == d;
      assert rest[t] == d;
    }
  }

  lemma JoinAgrees(reg: Registry, max: int, c: Connection)
    requires Agree(reg, max)
    ensures Agree(Joined(reg, max, c), max)
  {
    if c.socket !in reg.accepted && !(c.user in reg.users && |reg.users[c.user]| >= max) {
      RegisterAgrees(reg, max, c, Joined(reg, max, c));
    }
  }

  lemma DropAgrees(reg: Registry, max: int, s: Socket)
    requires Agree(reg, max)
    ensures Agree(Dropped(reg, s), max)
  {
    if s in reg.sockets {
      var c := reg.sockets[s];
      ValuesWithout(reg.sockets, s, Dropped(reg, s).sockets);
      GroupsWithout(reg.users, reg.sockets.Values, ByUser, c);
      GroupsWithout(reg.rooms, reg.sockets.Values, ByRoom, c);
      WithoutSize(reg.users, c.user, c);
    }
  }

  lemma WithoutSize(index: Index, key: string, c: Connection)
    ensures forall k :: k in Without(index, key, c) ==> k in index && |Without(index, key, c)[k]| <= |index[k]|
  {
  }

  lemma ChangeAgrees(reg: Registry, max: int, e: Change)
    requires Agree(reg, max)
    ensures Agree(Apply(reg, max, e), max)
  {
    match e
    case Join(c) => JoinAgrees(reg, max, c);
    case Drop(s) => DropAgrees(reg, max, s);
  }

  /** At every await, whatever the tasks do, the indexes agree. */
  lemma {:induction false} RunAgrees(reg: Registry, max: int, es: seq<Change>)
    requires Agree(reg, max)
    ensures Agree(Run(reg, max, es), max)
  {
    if es != [] {
      RunAgrees(reg, max, es[..|es| - 1]);
      ChangeAgrees(Run(reg, max, es[..|es| - 1]), max, es[|es| - 1]);
    }
  }

  predicate Gone(reg: Registry, s: Socket) { s in reg.accepted && s !in reg.sockets }

  /** A connection that was dropped never comes back. */
  lemma {:induction false} GoneForever(reg: Registry, max: int, es: seq<Change>, s: Socket)
    requires Gone(reg, s)
    ensures Gone(Run(reg, max, es), s)
  {
    if es != [] { GoneForever(reg, max, es[..|es| - 1], s); }
  }

  lemma {:induction false} AcceptedForever(reg: Registry, max: int, es: seq<Change>, s: Socket)
    requires s in reg.accepted
    ensures s in Run(reg, max, es).accepted
  {
    if es != [] { AcceptedForever(reg, max, es[..|es| - 1], s); }
  }

  lemma DropGone(reg: Registry, max: int, s: Socket, es: seq<Change>)
    requires s in reg.accepted
    ensures Gone(Run(reg, max, [Drop(s)] + es), s)
  {
    assert [Drop(s)][..0] == [];
    RunConcat(reg, max, [Drop(s)], es);
    GoneForever(Run(reg, max, [Drop(s)]), max, es, s);
  }

  lemma InBucketAccepted(reg: Registry, max: int, c: Connection, key: string)
    requires Agree(reg, max) && (c in Bucket(reg.users, key) || c in Bucket(reg.rooms, key))
    ensures c.socket in reg.accepted
  {
    assert c in reg.sockets.Values;
  }

  /** A socket that is gone is in no index. */
  lemma GoneFromIndexes(reg: Registry, max: int, c: Connection, key: string)
    requires Agree(reg, max) && Gone(reg, c.socket)
    ensures c !in Bucket(reg.users, key) && c !in Bucket(reg.rooms, key)
  {
    assert c in reg.sockets.Values ==> c.socket in reg.sockets;
  }

  lemma {:induction false} RunConcat(reg: Registry, max: int, es: seq<Change>, more: seq<Change>)
    ensures Run(reg, max, es + more) == Run(Run(reg, max, es), max, more)
  {
    if more == [] {
      assert es + more == es;
    } else {
      RunConcat(reg, max, es, more[..|more| - 1]);
      assert (es + more)[..|es + more| - 1] == es + more[..|more| - 1];
    }
  }

  // --- What every change does to the others -----------------------------------------------------

  /** Dropping a connection takes it, and nothing else, out of the three indexes. */
  lemma DropMeaning(reg: Registry, max: int, s: Socket, t: Socket, c: Connection, key: string)
    requires Agree(reg, max)
    ensures var r := Dropped(reg, s);
      && (t in r.sockets <==> t in reg.sockets && t != s)
      && (t in r.sockets ==> r.sockets[t] == reg.sockets[t])
      && (c in Bucket(r.users, key) <==> c in Bucket(reg.users, key) && c.socket != s)
      && (c in Bucket(r.rooms, key) <==> c in Bucket(reg.rooms, key) && c.socket != s)
      && r.accepted == reg.accepted
  {
    assert c in reg.sockets.Values ==> c.socket in reg.sockets && reg.sockets[c.socket] == c;
    assert s in reg.sockets ==> reg.sockets[s] in reg.sockets.Values;
  }

  lemma BucketIs(index: Index, conns: set<Connection>, g: Grouping, key: string)
    requires Groups(index, conns, g)
    ensures Bucket(index, key) == set c | c in conns && KeyOf(g, c) == key
    ensures key in index <==> Bucket(index, key) != {}
  {
    forall c | c in conns && KeyOf(g, c) == key ensures c in Bucket(index, key) {
      assert c in Bucket(index, KeyOf(g, c));
    }
    forall c | c in Bucket(index, key) ensures c in conns && KeyOf(g, c) == key { assert c in index[key]; }
  }

  function ConnectionsOf(reg: Registry, user: string): set<Connection> {
    set c | c in reg.sockets.Values && c.user == user
  }

  lemma WithMeaning(index: Index, key: string, n: Connection, c: Connection, k: string)
    ensures c in Bucket(With(index, key, n), k) <==> c in Bucket(index, k) || (c == n && k == key)
  {
  }

  lemma AddMeaning(reg: Registry, n: Connection, c: Connection, key: string)
    ensures var r := Registered(reg, n);
      && (c in Bucket(r.users, key) <==> c in Bucket(reg.users, key) || (c == n && key == n.user))
      && (c in Bucket(r.rooms, key) <==> c in Bucket(reg.rooms, key) || (c == n && key == n.room))
      && r.sockets == reg.sockets[n.socket := n] && r.accepted == reg.accepted + {n.socket}
  {
    WithMeaning(reg.users, n.user, n, c, key);
    WithMeaning(reg.rooms, n.room, n, c, key);
  }

  /** Whether a connection would be registered. */
  predicate Admits(reg: Registry, max: int, c: Connection) {
    c.socket !in reg.accepted && !(c.user in reg.users && |reg.users[c.user]| >= max)
  }

  /** A connection is let in if its socket is new and its user has no connection or fewer than the
      limit. */
  predicate LetIn(reg: Registry, max: int, n: Connection) {
    n.socket !in reg.accepted && (ConnectionsOf(reg, n.user) == {} || |ConnectionsOf(reg, n.user)| < max)
  }

  lemma AdmitsIff(reg: Registry, max: int, n: Connection)
    requires Agree(reg, max)
    ensures Admits(reg, max, n) <==> LetIn(reg, max, n)
  {
    BucketIs(reg.users, reg.sockets.Values, ByUser, n.user);
    assert ConnectionsOf(reg, n.user) == Bucket(reg.users, n.user);
  }

  lemma JoinedIs(reg: Registry, max: int, n: Connection)
    ensures Joined(reg, max, n)
         == if Admits(reg, max, n) then Registered(reg, n) else reg.(accepted := reg.accepted + {n.socket})
  {
    assert n.socket in reg.accepted ==> reg.accepted + {n.socket} == reg.accepted;
  }

  /** Joining adds a connection that is let in to the three indexes, and removes nobody; of any other
      only the socket is spent. */
  lemma JoinMeaning(reg: Registry, max: int, n: Connection, t: Socket, c: Connection, key: string)
    requires Agree(reg, max)
    ensures var r, added := Joined(reg, max, n), LetIn(reg, max, n);
      && (t in r.sockets <==> t in reg.sockets || (added && t == n.socket))
      && (t in r.sockets ==> r.sockets[t] == if added && t == n.socket then n else reg.sockets[t])
      && (c in Bucket(r.users, key) <==> c in Bucket(reg.users, key) || (added && c == n && key == n.user))
      && (c in Bucket(r.rooms, key) <==> c in Bucket(reg.rooms, key) || (added && c == n && key == n.room))
      && r.accepted == reg.accepted + {n.socket}
  {
    AdmitsIff(reg, max, n);
    JoinedIs(reg, max, n);
    AddMeaning(reg, n, c, key);
  }

  // --- Totals -----------------------------------------------------------------------------------

  function SizeOf(key: string, conns: set<Connection>): int { |conns| }

  ghost function SumOfSizes(index: Index): int { Total(index, SizeOf) }

  lemma SmallerIndex(index: Index, k: string)
    requires k in index
    ensures |index - {k}| < |index|
  {
    assert index.Keys == (index - {k}).Keys + {k};
  }

  lemma GroupsWithoutKey(index: Index, conns: set<Connection>, g: Grouping, k: string)
    requires Groups(index, conns, g) && k in index
    ensures Groups(index - {k}, conns - index[k], g)
  {
    var rest := index - {k};
    forall c | c in conns - index[k] ensures c in Bucket(rest, KeyOf(g, c)) {
      assert c in Bucket(index, KeyOf(g, c));
    }
    forall j, c | j in rest && c in rest[j] ensures c in conns - index[k] && KeyOf(g, c) == j {
      assert j in index && c in index[j];
      assert c in index[k] ==> KeyOf(g, c) == k;
    }
  }

  lemma BucketWithin(index: Index, conns: set<Connection>, g: Grouping, k: string)
    requires Groups(index, conns, g) && k in index
    ensures index[k] <= conns
  {
  }

  lemma SplitSize(conns: set<Connection>, part: set<Connection>)
    requires part <= conns
    ensures |conns| == |part| + |conns - part|
  {
    assert conns == part + (conns - part);
  }

  /** Every index that groups the connections has as many entries as there are connections. */
  lemma {:induction false} SumIsTotal(index: Index, conns: set<Connection>, g: Grouping)
    requires Groups(index, conns, g)
    ensures SumOfSizes(index) == |conns|
    decreases |index|
  {
    if index == map[] {
      assert forall c :: c in conns ==> c in Bucket(index, KeyOf(g, c));
      assert conns == {};
    } else {
      var k :| k in index && SumOfSizes(index) == |index[k]| + SumOfSizes(index - {k});
      SmallerIndex(index, k);
      GroupsWithoutKey(index, conns, g, k);
      BucketWithin(index, conns, g, k);
      SplitSize(conns, index[k]);
      SumIsTotal(index - {k}, conns - index[k], g);
    }
  }

  lemma {:induction false} ValuesSize(m: map<Socket, Connection>)
    requires forall s :: s in m ==> m[s].socket == s
    ensures |m.Values| == |m|
  {
    if m != map[] {
      var s :| s in m;
      ValuesSize(m - {s});
      assert m.Keys == (m - {s}).Keys + {s};
      assert m.Values == (m - {s}).Values + {m[s]};
    }
  }

  /** The sizes of the users' buckets and those of the rooms' buckets both add up to the number of
      sockets. */
  lemma Totals(reg: Registry, max: int)
    requires Agree(reg, max)
    ensures SumOfSizes(reg.users) == |reg.sockets| == SumOfSizes(reg.rooms)
  {
    SumIsTotal(reg.users, reg.sockets.Values, ByUser);
    SumIsTotal(reg.rooms, reg.sockets.Values, ByRoom);
    ValuesSize(reg.sockets);
  }
}
