/** Cursor paging of a room's messages: each page goes on after the highest ID of the one before. */
module MessageSync {

  datatype Message = Message(id: nat, user: string, room: string, content: string, deleted: bool)

  datatype Page = Page(messages: seq<Message>, cursor: nat, hasMore: bool)

  /** The IDs are the table's primary key. */
  predicate Keyed(table: seq<Message>) { forall i, j :: 0 <= i < j < |table| ==> table[i].id != table[j].id }

  predicate Wanted(m: Message, room: string, last: nat) { m.room == room && m.id > last && !m.deleted }

  function Insert(m: Message, ms: seq<Message>): seq<Message> {
    if ms == [] || m.id <= ms[0].id then [m] + ms else [ms[0]] + Insert(m, ms[1..])
  }

  /** What the query selects, ordered by ID, before its limit. */
  function Pending(table: seq<Message>, room: string, last: nat): seq<Message> {
    if table == [] then []
    else if Wanted(table[0], room, last) then Insert(table[0], Pending(table[1..], room, last))
    else Pending(table[1..], room, last)
  }

  function Query(table: seq<Message>, room: string, last: nat, limit: nat): seq<Message> {
    var all := Pending(table, room, last);
    if |all| <= limit then all else all[..limit]
  }

  predicate Ascending(ms: seq<Message>) { forall i, j :: 0 <= i < j < |ms| ==> ms[i].id < ms[j].id }

  lemma {:induction false} InsertAscends(m: Message, ms: seq<Message>)
    requires Ascending(ms) && forall k :: 0 <= k < |ms| ==> ms[k].id != m.id
    ensures Ascending(Insert(m, ms)) && forall x :: x in Insert(m, ms) <==> x == m || x in ms
  {
    if ms != [] && m.id > ms[0].id {
      InsertAscends(m, ms[1..]);
      assert ms == [ms[0]] + ms[1..];
      var rest := Insert(m, ms[1..]);
      forall k | 0 <= k < |rest| ensures ms[0].id < rest[k].id { assert rest[k] in rest; }
    }
  }

  /** The query selects exactly the room's messages past the cursor that are not deleted, in ascending
      order, each once. */
  lemma {:induction false} PendingMeaning(table: seq<Message>, room: string, last: nat)
    requires Keyed(table)
    ensures Ascending(Pending(table, room, last))
    ensures forall m :: m in Pending(table, room, last)
                   <==> m in table && m.room == room && m.id > last && !m.deleted
  {
    if table != [] {
      assert table == [table[0]] + table[1..];
      PendingMeaning(table[1..], room, last);
      var rest := Pending(table[1..], room, last);
      if Wanted(table[0], room, last) {
        forall k | 0 <= k < |rest| ensures rest[k].id != table[0].id { assert rest[k] in table[1..]; }
        InsertAscends(table[0], rest);
      }
    }
  }

  lemma InSuffix(ms: seq<Message>, k: nat, m: Message)
    requires Ascending(ms) && k <= |ms|
    ensures m in ms[k..] <==> m in ms && (k > 0 ==> m.id > ms[k - 1].id)
  {
    if m in ms {
      var i :| 0 <= i < |ms| && ms[i] == m;
      assert i >= k ==> ms[k..][i - k] == m;
    }
  }

  lemma HasMember(ms: seq<Message>)
    requires ms != []
    ensures exists m :: m in ms
  {
    assert ms[0] in ms;
  }

  lemma {:induction false} AscendingUnique(a: seq<Message>, b: seq<Message>)
    requires Ascending(a) && Ascending(b) && forall m :: m in a <==> m in b
    ensures a == b
  {
    if a != [] { HasMember(a); }
    if b != [] { HasMember(b); }
    if a != [] && b != [] {
      assert a[0] in b && b[0] in a;
      forall m ensures m in a[1..] <==> m in b[1..] {
        InSuffix(a, 1, m);
        InSuffix(b, 1, m);
      }
      AscendingUnique(a[1..], b[1..]);
    }
  }

  // --- One page ---------------------------------------------------------------------------------

  /** The cursor after a page. */
  function CursorAfter(last: nat, ms: seq<Message>): nat { if ms == [] then last else ms[|ms| - 1].id }

  function SyncPage(table: seq<Message>, room: string, last: nat, limit: nat): Page {
    var ms := Query(table, room, last, limit);
    Page(ms, CursorAfter(last, ms), |ms| == limit)
  }

  lemma QueryPast(table: seq<Message>, room: string, last: nat, limit: nat)
    requires Keyed(table)
    ensures var rows := Query(table, room, last, limit);
            Ascending(rows) && forall k :: 0 <= k < |rows| ==> rows[k].id > last
  {
    PendingMeaning(table, room, last);
    var rows := Query(table, room, last, limit);
    forall k | 0 <= k < |rows| ensures rows[k].id > last { assert rows[k] in Pending(table, room, last); }
  }

  function DeviceKey(device: string, room: string): string { "device:" + device + ":cur_max_msg_id:" + room }

  class SyncApi {
    var table: seq<Message>
    var redis: map<string, nat>

    constructor (table: seq<Message>)
      ensures this.table == table && redis == map[]
    {
      this.table, redis := table, map[];
    }

    /** The device's cursor is written only if the page moved it. */
    method SyncMessages(device: string, room: string, last: nat, limit: nat) returns (page: Page)
      requires Keyed(table) && limit >= 1
      modifies this`redis
      ensures page == SyncPage(table, room, last, limit)
      ensures redis == if page.messages == [] then old(redis) else old(redis)[DeviceKey(device, room) := page.cursor]
      ensures page.messages != [] ==> page.cursor > last
    {
      var rows := Query(table, room, last, limit);
      QueryPast(table, room, last, limit);
      var messages, highest := [], last;
      for k := 0 to |rows|
        invariant messages == rows[..k] && highest == CursorAfter(last, rows[..k])
      {
        messages := messages + [rows[k]];
        if highest < rows[k].id { highest := rows[k].id; }
      }
      if highest > last { redis := redis[DeviceKey(device, room) := highest]; }
      return Page(messages, highest, |rows| == limit);
    }
  }

  /** A page is what the table has between the two cursors: nothing in between is skipped. */
  lemma PageIsComplete(table: seq<Message>, room: string, last: nat, limit: nat, m: Message)
    requires Keyed(table) && limit >= 1
    ensures var p := SyncPage(table, room, last, limit);
      m in p.messages <==> m in table && m.room == room && !m.deleted && last < m.id <= p.cursor
  {
    PendingMeaning(table, room, last);
    var all := Pending(table, room, last);
    var p := SyncPage(table, room, last, limit);
    if m in all {
      var k :| 0 <= k < |all| && all[k] == m;
      assert k < |p.messages| ==> p.messages[k] == m;
    }
  }

  /** What is pending after a page is what was pending before it, less the page. */
  lemma PendingAfterPage(table: seq<Message>, room: string, last: nat, limit: nat)
    requires Keyed(table) && limit >= 1
    ensures var p := SyncPage(table, room, last, limit); var all := Pending(table, room, last);
      && p.messages <= all && Pending(table, room, p.cursor) == all[|p.messages|..]
  {
    var p, all := SyncPage(table, room, last, limit), Pending(table, room, last);
    var rest := all[|p.messages|..];
    PendingMeaning(table, room, last);
    PendingMeaning(table, room, p.cursor);
    assert p.messages != [] ==> all[|p.messages| - 1] in all;
    forall m ensures m in Pending(table, room, p.cursor) <==> m in rest {
      InSuffix(all, |p.messages|, m);
    }
    AscendingUnique(Pending(table, room, p.cursor), rest);
  }

  // --- Cursor keys ------------------------------------------------------------------------------

  const MARK := ":cur_max_msg_id:"

  /** The rooms of one device have keys of their own. */
  lemma RoomsApart(device: string, room: string, room': string)
    requires DeviceKey(device, room) == DeviceKey(device, room')
    ensures room == room'
  {
    SameStart("device:" + device + MARK, room, room');
  }

  lemma SameStart(a: string, b: string, c: string)
    requires a + b == a + c
    ensures b == c
  {
    assert (a + b)[|a|..] == b && (a + c)[|a|..] == c;
  }

  ghost predicate ShareKey(device: string, device': string) {
    exists room, room' :: DeviceKey(device, room) == DeviceKey(device', room')
  }

  /** One name goes on, after the other, with the text that comes before the room. */
  predicate Extends(device: string, device': string) { device + MARK <= device' + ":" }

  lemma KeyIs(device: string, room: string)
    ensures DeviceKey(device, room) == "device:" + (device + MARK + room)
  {
  }

  lemma TailShares(device: string, device': string, tail: string)
    requires device' + ":" == device + MARK + tail
    ensures DeviceKey(device, tail + MARK[1..]) == DeviceKey(device', "")
  {
    var rest := MARK[1..];
    assert MARK == ":" + rest;
    calc {
      device' + MARK + "";
      (device' + ":") + rest;
      (device + MARK + tail) + rest;
      device + MARK + (tail + rest);
    }
    KeyIs(device, tail + rest);
    KeyIs(device', "");
  }

  lemma ExtendsShares(device: string, device': string)
    requires Extends(device, device')
    ensures ShareKey(device, device')
  {
    TailShares(device, device', (device' + ":")[|device + MARK|..]);
  }

  lemma SameLength(device: string, device': string, room: string, room': string)
    requires DeviceKey(device, room) == DeviceKey(device', room')
    ensures |device| == |device'| ==> device == device'
  {
    KeyIs(device, room);
    KeyIs(device', room');
    SameStart("device:", device + MARK + room, device' + MARK + room');
    assert device == (device + MARK + room)[..|device|] && device' == (device' + MARK + room')[..|device'|];
  }

  lemma SharedExtends(device: string, device': string, room: string, room': string)
    requires DeviceKey(device, room) == DeviceKey(device', room') && |device| < |device'|
    ensures Extends(device, device')
  {
    KeyIs(device, room);
    KeyIs(device', room');
    SameStart("device:", device + MARK + room, device' + MARK + room');
    var s, n := device + MARK + room, |device'| - |device|;
    assert s == device' + MARK + room';
    MarkFits(s, device, room, device', room');
    assert device + MARK == s[..|device| + 16] && device' + ":" == s[..|device'| + 1];
  }

  lemma MarkColons()
    ensures |MARK| == 16 && MARK[0] == ':' && forall j :: 0 < j < 15 ==> MARK[j] != ':'
  {
  }

  lemma MarkAt(s: string, device: string, room: string, j: nat)
    requires s == device + MARK + room && j < |MARK|
    ensures |device| + j < |s| && s[|device| + j] == MARK[j]
  {
  }

  /** The mark overlaps itself only in its last character. */
  lemma MarkFits(s: string, device: string, room: string, device': string, room': string)
    requires s == device + MARK + room == device' + MARK + room' && |device| < |device'|
    ensures |MARK| == 16 && |device'| - |device| >= 15
  {
    var n := |device'| - |device|;
    MarkColons();
    MarkAt(s, device', room', 0);
    if n < 16 { MarkAt(s, device, room, n); }
  }

  /** Two devices can share a cursor key, in some rooms, exactly if one's name goes on like this after
      the other's. Names without colons never do. */
  lemma DevicesShareIff(device: string, device': string)
    requires device != device'
    ensures ShareKey(device, device') <==> Extends(device, device') || Extends(device', device)
  {
    if Extends(device, device') { ExtendsShares(device, device'); }
    if Extends(device', device) {
      ExtendsShares(device', device);
      var room', room :| DeviceKey(device', room') == DeviceKey(device, room);
      assert DeviceKey(device, room) == DeviceKey(device', room');
    }
    if room, room' :| DeviceKey(device, room) == DeviceKey(device', room') {
      SameLength(device, device', room, room');
      if |device| < |device'| {
        SharedExtends(device, device', room, room');
      } else {
        SharedExtends(device', device, room', room);
      }
    }
  }

  // --- All pages --------------------------------------------------------------------------------

  /** A client that asks on with the returned cursor until there is no more; page `k` has its own limit. */
  function AllPages(table: seq<Message>, room: string, last: nat, limits: nat -> nat, k: nat): seq<Page>
    requires Keyed(table) && forall i :: limits(i) >= 1
    decreases |Pending(table, room, last)|
  {
    var p := SyncPage(table, room, last, limits(k));
    PendingAfterPage(table, room, last, limits(k));
    if p.hasMore then [p] + AllPages(table, room, p.cursor, limits, k + 1) else [p]
  }

  function Joined(pages: seq<Page>): seq<Message> {
    if pages == [] then [] else pages[0].messages + Joined(pages[1..])
  }

  /** Paging ends, and its pages together are exactly the room's messages past the start. */
  lemma {:induction false} PagesAreComplete(table: seq<Message>, room: string, last: nat, limits: nat -> nat, k: nat)
    requires Keyed(table) && forall i :: limits(i) >= 1
    ensures Joined(AllPages(table, room, last, limits, k)) == Pending(table, room, last)
    decreases |Pending(table, room, last)|
  {
    var p := SyncPage(table, room, last, limits(k));
    PendingAfterPage(table, room, last, limits(k));
    var pages := AllPages(table, room, last, limits, k);
    if p.hasMore {
      PagesAreComplete(table, room, p.cursor, limits, k + 1);
      assert pages[1..] == AllPages(table, room, p.cursor, limits, k + 1);
    } else {
      assert pages[1..] == [];
      assert Joined([]) == [];
    }
  }

  /** With one limit throughout, no page but the last is short, and an extra empty page comes only
      when the messages fill their pages exactly. */
  lemma {:induction false} PageCount(table: seq<Message>, room: string, last: nat, limits: nat -> nat, k: nat,
      limit: nat)
    requires Keyed(table) && limit >= 1 && forall i :: limits(i) == limit
    ensures var pages := |AllPages(table, room, last, limits, k)|;
      (pages - 1) * limit <= |Pending(table, room, last)| < pages * limit
    decreases |Pending(table, room, last)|
  {
    var p := SyncPage(table, room, last, limit);
    PendingAfterPage(table, room, last, limit);
    if p.hasMore {
      PageCount(table, room, p.cursor, limits, k + 1, limit);
      OneMorePage(|AllPages(table, room, p.cursor, limits, k + 1)|, limit, |Pending(table, room, p.cursor)|);
    }
  }

  lemma OneMorePage(pages: nat, limit: nat, n: nat)
    requires (pages - 1) * limit <= n < pages * limit
    ensures pages * limit <= n + limit < (pages + 1) * limit
  {
    assert pages * limit == (pages - 1) * limit + limit && (pages + 1) * limit == pages * limit + limit;
  }

  // --- A table that changes between pages -------------------------------------------------------

  /** Page after page, the table being whatever it is at the time. */
  function Pages(tables: seq<seq<Message>>, room: string, start: nat, limits: nat -> nat, n: nat): (seq<Message>, nat)
    requires n <= |tables|
  {
    if n == 0 then ([], start)
    else
      var (ms, last) := Pages(tables, room, start, limits, n - 1);
      var p := SyncPage(tables[n - 1], room, last, limits(n - 1));
      (ms + p.messages, p.cursor)
  }

  ghost predicate AllKeyed(tables: seq<seq<Message>>) { forall i :: 0 <= i < |tables| ==> Keyed(tables[i]) }

  /** The messages so far are in ascending order between the start and the cursor. */
  predicate InOrder(ms: seq<Message>, start: nat, last: nat) {
    start <= last && Ascending(ms) && forall k :: 0 <= k < |ms| ==> start < ms[k].id <= last
  }

  lemma NextInOrder(ms: seq<Message>, start: nat, last: nat, table: seq<Message>, room: string, limit: nat)
    requires InOrder(ms, start, last) && Keyed(table)
    ensures var p := SyncPage(table, room, last, limit); InOrder(ms + p.messages, start, p.cursor)
  {
    PendingMeaning(table, room, last);
    var p := SyncPage(table, room, last, limit);
    forall k | 0 <= k < |p.messages| ensures last < p.messages[k].id <= p.cursor {
      assert p.messages[k] in Pending(table, room, last);
    }
  }

  /** However the table changes in between, no message comes twice and all come in ascending order. */
  lemma {:induction false} PagesInOrder(tables: seq<seq<Message>>, room: string, start: nat, limits: nat -> nat, n: nat)
    requires AllKeyed(tables) && n <= |tables|
    ensures var (ms, last) := Pages(tables, room, start, limits, n); InOrder(ms, start, last)
  {
    if n > 0 {
      PagesInOrder(tables, room, start, limits, n - 1);
      var (ms, last) := Pages(tables, room, start, limits, n - 1);
      NextInOrder(ms, start, last, tables[n - 1], room, limits(n - 1));
    }
  }

  /** A message of the room that is not deleted, and is in the table from page `j` on but not before,
      comes exactly if its ID is past the cursor of that moment, once the cursor has reached it: what
      is inserted below the cursor never comes. */
  lemma {:induction false} LateMessageComesIff(tables: seq<seq<Message>>, room: string, start: nat, limits: nat -> nat,
                                               j: nat, n: nat, m: Message)
    requires AllKeyed(tables) && (forall i :: limits(i) >= 1) && j <= n <= |tables|
    requires m.room == room && !m.deleted
    requires (forall i :: 0 <= i < j ==> m !in tables[i]) && forall i :: j <= i < n ==> m in tables[i]
    ensures Pages(tables, room, start, limits, j).1 <= Pages(tables, room, start, limits, n).1
    ensures m in Pages(tables, room, start, limits, n).0
       <==> Pages(tables, room, start, limits, j).1 < m.id <= Pages(tables, room, start, limits, n).1
  {
    if n == j {
      NotYetThere(tables, room, start, limits, j, m);
    } else {
      LateMessageComesIff(tables, room, start, limits, j, n - 1, m);
      var (ms, last) := Pages(tables, room, start, limits, n - 1);
      assert m in tables[n - 1];
      PageIsComplete(tables[n - 1], room, last, limits(n - 1), m);
      NextInOrder([], last, last, tables[n - 1], room, limits(n - 1));
    }
  }

  lemma {:induction false} NotYetThere(tables: seq<seq<Message>>, room: string, start: nat, limits: nat -> nat,
      j: nat, m: Message)
    requires AllKeyed(tables) && (forall i :: limits(i) >= 1)
    requires j <= |tables| && forall i :: 0 <= i < j ==> m !in tables[i]
    ensures m !in Pages(tables, room, start, limits, j).0
  {
    if j > 0 {
      NotYetThere(tables, room, start, limits, j - 1, m);
      var last := Pages(tables, room, start, limits, j - 1).1;
      PageIsComplete(tables[j - 1], room, last, limits(j - 1), m);
    }
  }

  /** In particular, a message that is there throughout comes exactly once the cursor has reached it. */
  lemma LastingMessageComes(tables: seq<seq<Message>>, room: string, start: nat, limits: nat -> nat, n: nat, m: Message)
    requires AllKeyed(tables) && (forall i :: limits(i) >= 1) && n <= |tables|
    requires m.room == room && !m.deleted && m.id > start && forall i :: 0 <= i < n ==> m in tables[i]
    ensures var (ms, last) := Pages(tables, room, start, limits, n); m in ms <==> m.id <= last
  {
    LateMessageComesIff(tables, room, start, limits, 0, n, m);
  }
}
