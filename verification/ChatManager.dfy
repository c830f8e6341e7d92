/** The connection manager in its own form: dictionaries updated in place, and loops that send. */
module ChatManager {
  import opened Basics
  import opened ChatConnections
  import opened ChatOutside

  method Insert(index: Index, key: string, c: Connection) returns (r: Index)
    ensures r == With(index, key, c)
  {
    r := index;
    if key !in r { r := r[key := {}]; }
    r := r[key := r[key] + {c}];
  }

  method Discard(index: Index, key: string, c: Connection) returns (r: Index)
    ensures r == Without(index, key, c)
  {
    r := index;
    if key in r {
      r := r[key := r[key] - {c}];
      if r[key] == {} { r := map k | k in r && k != key :: r[k]; }
    }
  }

  datatype Stats = Stats(totalUsers: nat, totalConnections: nat, rooms: map<string, nat>, onlineUsers: set<string>)

  function NotTo(s: Option<Socket>): Exclusion { if s.Some? then TheSocket(s.value) else Nobody }

  function NotToUser(u: Option<string>): Exclusion { if u.Some? && u.value != "" then User(u.value) else Nobody }

  ghost function OfUsers(conns: set<Connection>, names: set<string>): set<Connection> {
    set c | c in conns && c.user in names
  }

  lemma OfUsersOneLess(users: Index, conns: set<Connection>, names: set<string>, u: string)
    requires Groups(users, conns, ByUser) && u in names && names <= users.Keys
    ensures |OfUsers(conns, names)| == |OfUsers(conns, names - {u})| + |users[u]|
  {
    assert forall c :: c in conns ==> c in Bucket(users, KeyOf(ByUser, c));
    assert OfUsers(conns, names) == OfUsers(conns, names - {u}) + users[u];
  }

  lemma OfAllUsers(reg: Registry, max: int)
    requires Agree(reg, max)
    ensures |OfUsers(reg.sockets.Values, reg.users.Keys)| == |reg.sockets| && OfUsers(reg.sockets.Values, {}) == {}
  {
    assert forall c :: c in reg.sockets.Values ==> c in Bucket(reg.users, KeyOf(ByUser, c));
    assert OfUsers(reg.sockets.Values, reg.users.Keys) == reg.sockets.Values;
    ValuesSize(reg.sockets);
  }

  // --- Who is sent to ---------------------------------------------------------------------------

  /** A user's connections but for one socket, if one is named. */
  function UserAudience(reg: Registry, user: string, exclude: Option<Socket>): set<Connection> {
    set c | c in reg.sockets.Values && c.user == user && (exclude == None || exclude != Some(c.socket))
  }

  function RoomAudience(reg: Registry, room: string, sender: Option<Socket>): set<Connection> {
    set c | c in reg.sockets.Values && c.room == room && (sender == None || sender != Some(c.socket))
  }

  /** A room's connections but for those of one user, if a name is given that is not empty. */
  function OthersAudience(reg: Registry, room: string, user: Option<string>): set<Connection> {
    set c | c in reg.sockets.Values && c.room == room && (user == None || user == Some("") || user != Some(c.user))
  }

  lemma TargetsSplit(targets: set<Connection>, x: Exclusion, audience: set<Connection>)
    requires audience == set c | c in targets && !Excluded(x, c)
    ensures |targets| == |audience| + |Skipped(targets, x)|
  {
    assert targets == audience + Skipped(targets, x);
  }

  /** The sends of `send_to_user` go to exactly the user's connections but the excluded socket: each of
      them succeeded and is counted, or failed. */
  lemma SentToUser(outside: Outside, reg: Registry, max: int, user: string, exclude: Option<Socket>, start: nat,
      sent: nat, failed: set<Connection>)
    requires Agree(reg, max) && SentTo(outside, Bucket(reg.users, user), NotTo(exclude), start, sent, failed)
    ensures var to := UserAudience(reg, user, exclude); sent + |failed| == |to| && failed <= to
  {
    BucketIs(reg.users, reg.sockets.Values, ByUser, user);
    TargetsSplit(Bucket(reg.users, user), NotTo(exclude), UserAudience(reg, user, exclude));
  }

  /** Those of `broadcast_to_room` to exactly the room's connections but the sender's socket. */
  lemma SentToRoomBut(outside: Outside, reg: Registry, max: int, room: string, sender: Option<Socket>, start: nat,
      sent: nat, failed: set<Connection>)
    requires Agree(reg, max) && SentTo(outside, Bucket(reg.rooms, room), NotTo(sender), start, sent, failed)
    ensures var to := RoomAudience(reg, room, sender); sent + |failed| == |to| && failed <= to
  {
    BucketIs(reg.rooms, reg.sockets.Values, ByRoom, room);
    TargetsSplit(Bucket(reg.rooms, room), NotTo(sender), RoomAudience(reg, room, sender));
  }

  /** Those of `send_to_room` to exactly the room's connections of other users; an empty name excludes
      nobody. */
  lemma SentToOthers(outside: Outside, reg: Registry, max: int, room: string, user: Option<string>, start: nat,
      sent: nat, failed: set<Connection>)
    requires Agree(reg, max) && SentTo(outside, Bucket(reg.rooms, room), NotToUser(user), start, sent, failed)
    ensures var to := OthersAudience(reg, room, user); sent + |failed| == |to| && failed <= to
  {
    BucketIs(reg.rooms, reg.sockets.Values, ByRoom, room);
    TargetsSplit(Bucket(reg.rooms, room), NotToUser(user), OthersAudience(reg, room, user));
  }

  class ConnectionManager {
    const max: int
    const outside: Outside
    var users: Index
    var sockets: map<Socket, Connection>
    var rooms: Index
    var accepted: set<Socket>

    constructor (max: int, outside: Outside)
      ensures this.max == max && this.outside == outside && View() == EMPTY && Valid()
    {
      this.max, this.outside, users, sockets, rooms, accepted := max, outside, map[], map[], map[], {};
    }

    function View(): Registry reads this { Registry(users, sockets, rooms, accepted) }

    ghost predicate Valid() reads this { Agree(View(), max) }

    method Add(c: Connection)
      requires Valid() && c.socket !in accepted && (c.user in users ==> |users[c.user]| < max)
      modifies this
      ensures Valid() && View() == Joined(old(View()), max, c)
    {
      JoinAgrees(View(), max, c);
      users := Insert(users, c.user, c);
      rooms := Insert(rooms, c.room, c);
      sockets := sockets[c.socket := c];
      accepted := accepted + {c.socket};
    }

    /** The part of `disconnect` before its awaits. */
    method Remove(s: Socket)
      requires Valid()
      modifies this
      ensures Valid() && View() == Dropped(old(View()), s)
      ensures sockets == old(sockets) - {s}
    {
      if s !in sockets {
        assert sockets - {s} == sockets;
        return;
      }
      DropAgrees(View(), max, s);
      var c := sockets[s];
      users := Discard(users, c.user, c);
      rooms := Discard(rooms, c.room, c);
      sockets := map t | t in sockets && t != s :: sockets[t];
    }

    /** Other tasks run. */
    method Await() returns (ok: bool)
      requires Valid()
      modifies this, outside
      ensures Valid() && outside.at == old(outside.at) + 1 && ok == outside.succeeds(old(outside.at))
      ensures View() == Run(old(View()), max, outside.meanwhile(old(outside.at)))
    {
      var es := outside.meanwhile(outside.at);
      for k := 0 to |es|
        invariant Valid() && View() == Run(old(View()), max, es[..k]) && outside.at == old(outside.at)
      {
        assert es[..k + 1][..k] == es[..k];
        match es[k]
        case Drop(s) => Remove(s);
        case Join(c) =>
          if c.socket !in accepted {
            if c.user in users && |users[c.user]| >= max { accepted := accepted + {c.socket}; } else { Add(c); }
          }
      }
      assert es[..|es|] == es;
      ok := outside.succeeds(outside.at);
      outside.at := outside.at + 1;
    }

    /** Presence and session are written to Redis. */
    method UpdateRedis()
      requires Valid()
      modifies this, outside
      ensures Valid() && outside.at == old(outside.at) + 2
      ensures View() == Run(old(View()), max, outside.Between(old(outside.at), outside.at))
    {
      ghost var reg := View();
      var _ := Await();
      var _ := Await();
      outside.RunTwo(View(), reg, max, old(outside.at));
    }

    method Disconnect(s: Socket)
      requires Valid()
      modifies this, outside
      ensures Valid() && outside.at >= old(outside.at)
      ensures View() == Run(old(View()), max, [Drop(s)] + outside.Between(old(outside.at), outside.at))
    {
      ghost var reg := View();
      RunOne(reg, max, Drop(s));
      if s !in sockets {
        assert [Drop(s)] + [] == [Drop(s)];
        return;
      }
      Remove(s);
      UpdateRedis();
      RunConcat(reg, max, [Drop(s)], outside.Between(old(outside.at), outside.at));
    }

    method Refuse(c: Connection)
      requires Valid() && c.socket !in accepted && !Admits(View(), max, c)
      modifies this`accepted
      ensures Valid() && View() == Joined(old(View()), max, c)
    {
      JoinAgrees(View(), max, c);
      accepted := accepted + {c.socket};
    }

    method Close(c: Connection)
      requires Valid() && c.socket !in accepted && !Admits(View(), max, c)
      modifies this, outside
      ensures Valid() && outside.at > old(outside.at)
      ensures View() == Run(old(View()), max, [Join(c)] + outside.Between(old(outside.at), outside.at))
    {
      ghost var reg := View();
      Refuse(c);
      var _ := Await();
      RunOne(reg, max, Join(c));
      outside.RunNext(View(), Joined(reg, max, c), max, old(outside.at));
      RunConcat(reg, max, [Join(c)], outside.Between(old(outside.at), outside.at));
    }

    method AddAndAnnounce(c: Connection)
      requires Valid() && Admits(View(), max, c)
      modifies this, outside
      ensures Valid() && outside.at > old(outside.at)
      ensures View() == Run(old(View()), max, [Join(c)] + outside.Between(old(outside.at), outside.at))
    {
      ghost var reg := View();
      Add(c);
      UpdateRedis();
      RunOne(reg, max, Join(c));
      RunConcat(reg, max, [Join(c)], outside.Between(old(outside.at), outside.at));
    }

    /** The rest of `connect` once the socket has been accepted. */
    method Register(c: Connection) returns (ok: bool)
      requires Valid()
      modifies this, outside
      ensures Valid() && outside.at >= old(outside.at) && (ok <==> Admits(old(View()), max, c))
      ensures View() == Run(old(View()), max, [Join(c)] + outside.Between(old(outside.at), outside.at))
    {
      if c.socket in accepted {
        RunOne(View(), max, Join(c));
        assert [Join(c)] + [] == [Join(c)];
        return false;
      }
      if c.user in users && |users[c.user]| >= max {
        Close(c);
        return false;
      }
      AddAndAnnounce(c);
      return true;
    }

    /** `ok` is whether the connection was registered; by then other tasks may have dropped it. */
    method Connect(c: Connection) returns (ok: bool)
      requires Valid()
      modifies this, outside
      ensures Valid() && outside.at > old(outside.at)
      ensures var reg := Run(old(View()), max, outside.meanwhile(old(outside.at)));
        if outside.succeeds(old(outside.at)) then
          && (ok <==> Admits(reg, max, c))
          && View() == Run(reg, max, [Join(c)] + outside.Between(old(outside.at) + 1, outside.at))
        else !ok && View() == reg
    {
      ok := Await();
      if ok { ok := Register(c); }
    }

    /** One send of a loop that began in `reg`, at await number `start`. */
    method Send(ghost reg: Registry, ghost start: nat) returns (ok: bool)
      requires Valid() && start <= outside.at && View() == Run(reg, max, outside.Between(start, outside.at))
      modifies this, outside
      ensures Valid() && outside.at == old(outside.at) + 1
          && View() == Run(reg, max, outside.Between(start, outside.at))
      ensures outside.Successes(start, outside.at) == outside.Successes(start, old(outside.at)) + if ok then 1 else 0
    {
      RunConcat(reg, max, outside.Between(start, outside.at), outside.meanwhile(outside.at));
      ok := Await();
    }

    /** Sends one by one to a snapshot, except to those excluded; others run during every send. */
    method SendAll(targets: set<Connection>, x: Exclusion) returns (sent: nat, disconnected: set<Connection>)
      requires Valid()
      modifies this, outside
      ensures Valid() && outside.at >= old(outside.at)
          && SentTo(outside, targets, x, old(outside.at), sent, disconnected)
      ensures View() == Run(old(View()), max, outside.Between(old(outside.at), outside.at))
    {
      ghost var reg, start := View(), outside.at;
      sent, disconnected := 0, {};
      var todo := targets;
      assert Skipped(targets - todo, x) == {};
      while todo != {}
        invariant Valid() && Tally(targets, x, todo, disconnected, sent)
        invariant outside.at == old(outside.at) + |targets| - |todo| - |Skipped(targets - todo, x)| >= start
        invariant sent == outside.Successes(start, outside.at)
        invariant View() == Run(reg, max, outside.Between(start, outside.at))
      {
        var c :| c in todo;
        if Excluded(x, c) {
          TallySkip(targets, x, todo, disconnected, sent, c);
        } else {
          TallySend(targets, x, todo, disconnected, sent, c);
          var ok := Send(reg, start);
          if ok { sent := sent + 1; } else { disconnected := disconnected + {c}; }
        }
        todo := todo - {c};
      }
      assert targets - todo == targets;
    }

    /** Disconnects what the sends found disconnected, while other tasks go on. */
    method CleanUp(disconnected: set<Connection>) returns (ghost changes: seq<Change>)
      requires Valid() && forall c :: c in disconnected ==> c.socket in accepted
      modifies this, outside
      ensures Valid() && Settled(old(View()), changes, disconnected, old(outside.at))
    {
      ghost var reg, start := View(), outside.at;
      changes := [];
      var todo := disconnected;
      while todo != {}
        invariant Valid() && todo <= disconnected && start <= outside.at
        invariant View() == Run(reg, max, changes) && Accounted(outside, changes, disconnected, start, outside.at)
        invariant forall c :: c in disconnected ==> c.socket in accepted
        invariant forall c :: c in disconnected - todo ==> Gone(View(), c.socket)
      {
        var c :| c in todo;
        ghost var before, at := View(), outside.at;
        Disconnect(c.socket);
        ghost var more := [Drop(c.socket)] + outside.Between(at, outside.at);
        DropGone(before, max, c.socket, outside.Between(at, outside.at));
        StillGone(before, more, disconnected, disconnected - todo);
        DropAccounted(outside, disconnected, c, start, at, outside.at);
        AccountedMore(outside, changes, disconnected, start, at, more, outside.at);
        RunConcat(reg, max, changes, more);
        changes := changes + more;
        todo := todo - {c};
      }
    }

    lemma StillGone(reg: Registry, es: seq<Change>, conns: set<Connection>, gone: set<Connection>)
      requires forall c :: c in conns ==> c.socket in reg.accepted
      requires forall c :: c in gone ==> Gone(reg, c.socket)
      ensures forall c :: c in conns ==> c.socket in Run(reg, max, es).accepted
      ensures forall c :: c in gone ==> Gone(Run(reg, max, es), c.socket)
    {
      forall c | c in conns ensures c.socket in Run(reg, max, es).accepted { AcceptedForever(reg, max, es, c.socket); }
      forall c | c in gone ensures Gone(Run(reg, max, es), c.socket) { GoneForever(reg, max, es, c.socket); }
    }

    /** Since `reg`, nothing has changed but by other tasks and by dropping these connections, all
        of which are gone. */
    ghost predicate Settled(reg: Registry, changes: seq<Change>, disconnected: set<Connection>, start: nat)
      reads this, outside
    {
      && start <= outside.at && View() == Run(reg, max, changes)
      && Accounted(outside, changes, disconnected, start, outside.at)
      && forall c :: c in disconnected ==> Gone(View(), c.socket)
    }

    method Deliver(targets: set<Connection>, x: Exclusion)
      returns (sent: nat, ghost disconnected: set<Connection>, ghost changes: seq<Change>)
      requires Valid() && forall c :: c in targets ==> c.socket in accepted
      modifies this, outside
      ensures Valid() && Settled(old(View()), changes, disconnected, old(outside.at))
      ensures SentTo(outside, targets, x, old(outside.at), sent, disconnected)
    {
      ghost var reg, start := View(), outside.at;
      var failed;
      sent, failed := SendAll(targets, x);
      ghost var at := outside.at;
      ghost var others := outside.Between(start, at);
      StillGone(reg, others, targets, {});
      ghost var more := CleanUp(failed);
      disconnected := failed;
      RunConcat(reg, max, others, more);
      BetweenAccounted(outside, failed, start, at);
      EarlierAccounted(outside, more, failed, start, at, outside.at);
      AccountedMore(outside, others, failed, start, at, more, outside.at);
      changes := others + more;
    }

    method SendToUser(user: string, exclude: Option<Socket>)
      returns (sent: nat, ghost disconnected: set<Connection>, ghost changes: seq<Change>)
      requires Valid()
      modifies this, outside
      ensures Valid() && Settled(old(View()), changes, disconnected, old(outside.at))
      ensures SentTo(outside, Bucket(old(users), user), NotTo(exclude), old(outside.at), sent, disconnected)
    {
      forall c | c in Bucket(users, user) ensures c.socket in accepted { InBucketAccepted(View(), max, c, user); }
      sent, disconnected, changes := 0, {}, [];
      if user !in users { return; }
      sent, disconnected, changes := Deliver(users[user], NotTo(exclude));
    }

    /** An empty name excludes nobody. */
    method SendToRoom(room: string, excludeUser: Option<string>)
      returns (sent: nat, ghost disconnected: set<Connection>, ghost changes: seq<Change>)
      requires Valid()
      modifies this, outside
      ensures Valid() && Settled(old(View()), changes, disconnected, old(outside.at))
      ensures SentTo(outside, Bucket(old(rooms), room), NotToUser(excludeUser), old(outside.at), sent, disconnected)
    {
      forall c | c in Bucket(rooms, room) ensures c.socket in accepted { InBucketAccepted(View(), max, c, room); }
      sent, disconnected, changes := 0, {}, [];
      if room !in rooms { return; }
      sent, disconnected, changes := Deliver(rooms[room], NotToUser(excludeUser));
    }

    method BroadcastToRoom(room: string, sender: Option<Socket>)
      returns (sent: nat, ghost disconnected: set<Connection>, ghost changes: seq<Change>)
      requires Valid()
      modifies this, outside
      ensures Valid() && Settled(old(View()), changes, disconnected, old(outside.at))
      ensures SentTo(outside, Bucket(old(rooms), room), NotTo(sender), old(outside.at), sent, disconnected)
    {
      forall c | c in Bucket(rooms, room) ensures c.socket in accepted { InBucketAccepted(View(), max, c, room); }
      sent, disconnected, changes := 0, {}, [];
      if room !in rooms { return; }
      sent, disconnected, changes := Deliver(rooms[room], NotTo(sender));
    }

    method GetConnectionStats() returns (stats: Stats)
      requires Valid()
      ensures stats.totalConnections == |sockets| == SumOfSizes(rooms)
      ensures stats.onlineUsers == users.Keys && stats.totalUsers == |users|
      ensures stats.rooms == map r | r in rooms :: |rooms[r]|
    {
      Totals(View(), max);
      OfAllUsers(View(), max);
      ghost var conns := sockets.Values;
      var total := 0;
      var todo := users.Keys;
      while todo != {}
        invariant todo <= users.Keys && total + |OfUsers(conns, todo)| == |sockets|
      {
        var u :| u in todo;
        OfUsersOneLess(users, conns, todo, u);
        total := total + |users[u]|;
        todo := todo - {u};
      }
      var roomStats := map r | r in rooms :: |rooms[r]|;
      stats := Stats(|users|, total, roomStats, users.Keys);
    }
  }
}
