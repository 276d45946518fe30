/** The realtime hub: per-user sets of streams with bounded queues, drop counters and shutdown. */
module Hub {
  import opened Common

  datatype Notification = Notification(user: int, id: int)
  datatype Result<T> = Ok(value: T) | TooManyConnections | HubClosed

  /** a can be had from b by leaving elements out. */
  predicate Within<T(==)>(a: seq<T>, b: seq<T>)
  {
    a == [] ||
    (b != [] &&
     ((a[|a| - 1] == b[|b| - 1] && Within(a[..|a| - 1], b[..|b| - 1])) || Within(a, b[..|b| - 1])))
  }

  lemma WithinGrows<T>(a: seq<T>, b: seq<T>, x: T)
    requires Within(a, b)
    ensures Within(a + [x], b + [x]) && Within(a, b + [x])
  {
  }

  /** The positions in b where the elements of a stand, in order. */
  lemma {:induction false} WithinInOrder<T>(a: seq<T>, b: seq<T>) returns (at: seq<nat>)
    requires Within(a, b)
    ensures |at| == |a| && forall i :: 0 <= i < |a| ==> at[i] < |b| && b[at[i]] == a[i]
    ensures forall i, j :: 0 <= i < j < |a| ==> at[i] < at[j]
    decreases |b|
  {
    if a == [] {
      at := [];
    } else if a[|a| - 1] == b[|b| - 1] && Within(a[..|a| - 1], b[..|b| - 1]) {
      at := WithinInOrder(a[..|a| - 1], b[..|b| - 1]);
      at := at + [|b| - 1];
    } else {
      at := WithinInOrder(a, b[..|b| - 1]);
    }
  }

  /** One stream. The ghost fields tell its history: everything offered to it, what its client has
      read, the drops already reported, and how often its done channel was closed. */
  class Conn {
    const user: int
    const capacity: nat
    var queue: seq<Notification>
    var dropped: nat
    var stopped: bool
    ghost var offered: seq<Notification>
    ghost var read: seq<Notification>
    ghost var reported: nat
    ghost var closes: nat

    /** Every event offered was read, is queued or was dropped, and what is read and queued keeps the
        order of what was offered. */
    ghost predicate Valid()
      reads this
    {
      && |queue| <= capacity
      && |offered| == |read| + |queue| + dropped + reported
      && Within(read + queue, offered)
      && closes == (if stopped then 1 else 0)
      && forall i :: 0 <= i < |offered| ==> offered[i].user == user
    }

    constructor (user: int, capacity: nat)
      ensures this.user == user && this.capacity == capacity && Valid()
      ensures queue == offered == read == [] && dropped == reported == closes == 0 && !stopped
    {
      this.user, this.capacity := user, capacity;
      queue, dropped, stopped := [], 0, false;
      offered, read, reported, closes := [], [], 0, 0;
    }

    /** Queued if there is room, dropped otherwise. */
    method Offer(n: Notification)
      requires Valid() && n.user == user
      modifies this
      ensures Valid() && Offered(old(queue), old(dropped), old(offered), n) && Kept(old(read), old(reported))
      ensures stopped == old(stopped)
    {
      WithinGrows(read + queue, offered, n);
      assert read + (queue + [n]) == read + queue + [n];
      offered := offered + [n];
      if |queue| < capacity {
        queue := queue + [n];
      } else {
        dropped := dropped + 1;
      }
    }

    /** What an offer of n makes of the stream. */
    ghost predicate Offered(wasQueue: seq<Notification>, wasDropped: nat, wasOffered: seq<Notification>,
                            n: Notification)
      reads this
    {
      && offered == wasOffered + [n]
      && queue == (if |wasQueue| < capacity then wasQueue + [n] else wasQueue)
      && dropped == (if |wasQueue| < capacity then wasDropped else wasDropped + 1)
    }

    ghost predicate Kept(wasRead: seq<Notification>, wasReported: nat)
      reads this
    {
      read == wasRead && reported == wasReported
    }

    /** The client takes the next event from the channel. */
    method Receive() returns (n: Notification)
      requires Valid() && queue != []
      modifies this
      ensures Valid() && n == old(queue)[0] && queue == old(queue)[1..] && read == old(read) + [n]
      ensures offered == old(offered) && dropped == old(dropped) && reported == old(reported) && stopped == old(stopped)
    {
      n := queue[0];
      assert read + [n] + queue[1..] == read + queue;
      queue, read := queue[1..], read + [n];
    }

    /** The drops since the last call; the count starts again. */
    method TakeDropped() returns (r: nat)
      requires Valid()
      modifies this
      ensures Valid() && r == old(dropped) && dropped == 0 && reported == old(reported) + r
      ensures queue == old(queue) && read == old(read) && offered == old(offered) && stopped == old(stopped)
    {
      r, dropped := dropped, 0;
      reported := reported + r;
    }

    /** Closes done the first time only. */
    method Stop()
      requires Valid()
      modifies this
      ensures Valid() && stopped && closes == 1
      ensures queue == old(queue) && dropped == old(dropped) && offered == old(offered)
      ensures Kept(old(read), old(reported))
    {
      if !stopped {
        stopped := true;
        closes := closes + 1;
      }
    }
  }

  /** streams are the members of the sets, each filed under its own user. */
  ghost predicate OwnUser(conns: map<int, set<Conn>>, streams: set<Conn>)
  {
    && (forall u, c :: u in conns && c in conns[u] ==> c.user == u && c in streams)
    && (forall c :: c in streams ==> c.user in conns && c in conns[c.user])
  }

  ghost function StreamsOf(streams: set<Conn>, users: set<int>): set<Conn> { set c | c in streams && c.user in users }

  lemma StreamsAdd(conns: map<int, set<Conn>>, streams: set<Conn>, users: set<int>, u: int)
    requires OwnUser(conns, streams) && u in conns && u !in users
    ensures |StreamsOf(streams, users + {u})| == |StreamsOf(streams, users)| + |conns[u]|
  {
    assert StreamsOf(streams, users + {u}) == StreamsOf(streams, users) + conns[u];
    assert StreamsOf(streams, users) !! conns[u];
  }

  /** Some element of the set: maps are walked in no particular order. */
  method Any<T(==)>(s: set<T>) returns (x: T)
    requires s != {}
    ensures x in s
  {
    x :| x in s;
  }

  lemma OwnUserAdd(conns: map<int, set<Conn>>, streams: set<Conn>, conn: Conn, mine: set<Conn>)
    requires OwnUser(conns, streams) && conn !in streams
    requires mine == if conn.user in conns then conns[conn.user] else {}
    ensures conn !in mine && OwnUser(conns[conn.user := mine + {conn}], streams + {conn})
  {
  }

  class Hub {
    var conns: map<int, set<Conn>>
    const maxPerUser: int
    const buffer: nat
    var closed: bool
    /** The registered streams. */
    ghost var streams: set<Conn>

    /** No user is over the cap, no empty set is kept, and each stream is filed under its user. */
    ghost predicate Filed()
      reads this
    {
      && maxPerUser >= 1 && buffer >= 1 && OwnUser(conns, streams)
      && (forall u :: u in conns ==> conns[u] != {} && |conns[u]| <= maxPerUser)
    }

    ghost predicate Valid()
      reads this, streams
    {
      && Filed()
      && (forall c :: c in streams ==> c.Valid() && c.capacity == buffer)
      && (closed ==> forall c :: c in streams ==> c.stopped)
    }

    constructor (maxPerUser: int, buffer: int)
      ensures Valid() && streams == {} && !closed
      ensures this.maxPerUser == (if maxPerUser < 1 then 1 else maxPerUser)
      ensures this.buffer == (if buffer < 1 then 1 else buffer)
    {
      this.conns := map[];
      this.maxPerUser := if maxPerUser < 1 then 1 else maxPerUser;
      this.buffer := if buffer < 1 then 1 else buffer;
      this.closed := false;
      this.streams := {};
    }

    function Count(user: int): nat
      reads this
    {
      if user in conns then |conns[user]| else 0
    }

    method Register(user: int) returns (r: Result<Conn>)
      requires Valid()
      modifies this
      ensures Valid() && closed == old(closed)
      ensures r.HubClosed? <==> closed
      ensures r.TooManyConnections? <==> !closed && old(Count(user)) >= maxPerUser
      ensures !r.Ok? ==> conns == old(conns) && streams == old(streams)
      ensures r.Ok? ==> fresh(r.value) && r.value.user == user && streams == old(streams) + {r.value}
      ensures r.Ok? ==> r.value.Valid() && r.value.offered == [] && !r.value.stopped
      ensures r.Ok? ==> Count(user) == old(Count(user)) + 1
    {
      if closed {
        return HubClosed;
      }
      if user in conns && |conns[user]| >= maxPerUser {
        return TooManyConnections;
      }
      var mine := if user in conns then conns[user] else {};
      var conn := new Conn(user, buffer);
      OwnUserAdd(conns, streams, conn, mine);
      conns := conns[user := mine + {conn}];
      streams := streams + {conn};
      r := Ok(conn);
    }

    /** Safe to call more than once, and with a stream that was never registered here. */
    method Unregister(conn: Conn)
      requires Valid()
      modifies this
      ensures Valid() && closed == old(closed) && streams == old(streams) - {conn}
    {
      var user := conn.user;
      if user in conns {
        var mine := conns[user] - {conn};
        assert |mine| <= |conns[user]|;
        conns := conns[user := mine];
        if |conns[user]| == 0 {
          conns := conns - {user};
        }
      }
      streams := streams - {conn};
    }

    /** Every stream of the recipient, and no other, is offered the event. */
    method Deliver(n: Notification)
      requires Valid()
      modifies if n.user in conns then conns[n.user] else {}
      ensures Valid()
      ensures forall c :: c in streams && c.user == n.user ==> c.stopped == old(c.stopped)
      ensures forall c :: c in streams && c.user == n.user ==>
                c.Offered(old(c.queue), old(c.dropped), old(c.offered), n) && c.Kept(old(c.read), old(c.reported))
    {
      if n.user !in conns {
        return;
      }
      ghost var mine := conns[n.user];
      var todo := conns[n.user];
      while todo != {}
        invariant todo <= mine
        invariant forall c :: c in streams ==> c.Valid() && c.stopped == old(c.stopped)
        invariant forall c :: c in todo ==> unchanged(c)
        invariant forall c :: c in mine - todo ==>
                    c.Offered(old(c.queue), old(c.dropped), old(c.offered), n) && c.Kept(old(c.read), old(c.reported))
        decreases |todo|
      {
        var c := Any(todo);
        c.Offer(n);
        todo := todo - {c};
      }
    }

    /** The number of open streams. */
    method Connections() returns (total: nat)
      requires Valid()
      ensures total == |streams|
    {
      total := 0;
      var todo: set<int> := conns.Keys;
      while todo != {}
        invariant todo <= conns.Keys && total == |StreamsOf(streams, conns.Keys - todo)|
        decreases |todo|
      {
        var u := Any(todo);
        ghost var done := conns.Keys - todo;
        StreamsAdd(conns, streams, done, u);
        total := total + |conns[u]|;
        todo := todo - {u};
        assert conns.Keys - todo == done + {u};
      }
      assert StreamsOf(streams, conns.Keys - todo) == streams;
    }

    /** New streams are refused from now on, and every open one has been closed exactly once. */
    method Shutdown()
      requires Valid()
      modifies this`closed, streams
      ensures Valid() && closed && forall c :: c in streams ==> c.stopped && c.closes == 1
      ensures forall c: Conn :: c in streams ==> unchanged(c`queue, c`dropped, c`offered, c`read, c`reported)
    {
      closed := true;
      var users: set<int> := conns.Keys;
      while users != {}
        invariant users <= conns.Keys && closed
        invariant forall c: Conn :: c in streams ==>
                    c.Valid() && unchanged(c`queue, c`dropped, c`offered, c`read, c`reported)
        invariant forall c :: c in streams && c.user !in users ==> c.stopped
        decreases |users|
      {
        var u := Any(users);
        StopAll(conns[u]);
        users := users - {u};
      }
    }

    static method StopAll(mine: set<Conn>)
      requires forall c :: c in mine ==> c.Valid()
      modifies mine
      ensures forall c :: c in mine ==> c.Valid() && c.stopped
      ensures forall c: Conn :: c in mine ==> unchanged(c`queue, c`dropped, c`offered, c`read, c`reported)
    {
      var todo := mine;
      while todo != {}
        invariant todo <= mine && forall c: Conn :: c in mine ==> c.Valid()
        invariant forall c: Conn :: c in mine ==> unchanged(c`queue, c`dropped, c`offered, c`read, c`reported)
        invariant forall c :: c in mine - todo ==> c.stopped
        decreases |todo|
      {
        var c := Any(todo);
        c.Stop();
        todo := todo - {c};
      }
    }
  }

  // ---- Every run --------------------------------------------------------------------

  /** A call on the hub or on the i-th stream ever opened. */
  datatype Op =
    | Register(user: int)
    | Unregister(i: nat)
    | Deliver(n: Notification)
    | Receive(i: nat)
    | TakeDropped(i: nat)
    | Shutdown

  /** known are all streams ever opened; stopped those registered when the hub was shut down. */
  ghost predicate Reached(hub: Hub, known: set<Conn>, stopped: set<Conn>)
    reads hub, hub.streams, known
  {
    && hub.Valid() && hub.streams <= known && stopped <= known
    && (forall c :: c in known ==> c.Valid() && (c.closes == if c in stopped then 1 else 0))
    && (if hub.closed then hub.streams <= stopped else stopped == {})
  }

  ghost function Members(conns: seq<Conn>): set<Conn> { set c | c in conns }

  /** How a call changes the registered streams; known may have grown since. */
  ghost predicate Moves(s: set<Conn>, t: set<Conn>, op: Op, known: seq<Conn>)
  {
    match op
    case Register(user) => t == s || exists c :: c in known && c !in s && c.user == user && t == s + {c}
    case Unregister(i) => t == s || (i < |known| && t == s - {known[i]})
    case _ => t == s
  }

  lemma MovesLater(s: set<Conn>, t: set<Conn>, op: Op, known: seq<Conn>, conn: Conn)
    requires Moves(s, t, op, known)
    ensures Moves(s, t, op, known + [conn])
  {
    if op.Register? && t != s {
      var c :| c in known && c !in s && c.user == op.user && t == s + {c};
      assert c in known + [conn];
    }
  }

  /** The registered streams move as the first k calls say. */
  ghost predicate MovesTo(registered: seq<set<Conn>>, ops: seq<Op>, k: nat, known: seq<Conn>)
  {
    && k <= |ops| && |registered| > k && registered[0] == {}
    && forall j :: 0 <= j < k ==> Moves(registered[j], registered[j + 1], ops[j], known)
  }

  lemma MovesOn(registered: seq<set<Conn>>, ops: seq<Op>, k: nat, known: seq<Conn>, streams: set<Conn>, more: seq<Conn>)
    requires MovesTo(registered, ops, k, known) && |registered| == k + 1 && k < |ops|
    requires |more| <= 1 && Moves(registered[k], streams, ops[k], known + more)
    ensures MovesTo(registered + [streams], ops, k + 1, known + more)
  {
    var next := registered + [streams];
    forall j | 0 <= j < k + 1
      ensures Moves(next[j], next[j + 1], ops[j], known + more)
    {
      if j < k {
        assert Moves(registered[j], registered[j + 1], ops[j], known);
        if more == [] {
          assert known + more == known;
        } else {
          assert more == [more[0]];
          MovesLater(registered[j], registered[j + 1], ops[j], known, more[0]);
        }
      }
    }
  }

  ghost predicate FirstShutdown(ops: seq<Op>, j: nat)
  {
    j < |ops| && ops[j].Shutdown? && forall i :: 0 <= i < j ==> !ops[i].Shutdown?
  }

  /** A stream's client reads from it if it can, or takes its drop count. */
  method OnStream(conn: Conn, receive: bool)
    requires conn.Valid()
    modifies conn
    ensures conn.Valid() && conn.stopped == old(conn.stopped)
  {
    if !receive {
      var _ := conn.TakeDropped();
    } else if conn.queue != [] {
      var _ := conn.Receive();
    }
  }

  /** One call. Nothing but Shutdown closes a stream, and it closes those registered then. */
  method Perform(hub: Hub, known: seq<Conn>, op: Op, ghost all: set<Conn>, ghost stopped: set<Conn>)
    returns (conn: Result<Conn>, ghost stopped': set<Conn>)
    requires Reached(hub, all, stopped) && forall i :: 0 <= i < |known| ==> known[i] in all
    modifies hub, all
    ensures hub.closed == (old(hub.closed) || op.Shutdown?)
    ensures conn.Ok? ==> fresh(conn.value) && op.Register? && !old(hub.closed)
    ensures op.Register? && old(hub.closed) ==> conn.HubClosed?
    ensures Reached(hub, if conn.Ok? then all + {conn.value} else all, stopped')
    ensures stopped' == if op.Shutdown? && !old(hub.closed) then old(hub.streams) else stopped
    ensures Moves(old(hub.streams), hub.streams, op, if conn.Ok? then known + [conn.value] else known)
  {
    stopped' := stopped;
    conn := HubClosed;
    match op {
      case Register(user) =>
        conn := hub.Register(user);
      case Unregister(i) =>
        if i < |known| {
          hub.Unregister(known[i]);
        }
      case Deliver(n) =>
        hub.Deliver(n);
      case Receive(i) =>
        if i < |known| {
          OnStream(known[i], true);
        }
      case TakeDropped(i) =>
        if i < |known| {
          OnStream(known[i], false);
        }
      case Shutdown =>
        if !hub.closed {
          stopped' := hub.streams;
        }
        hub.Shutdown();
    }
  }

  /** Any sequence of calls leaves a valid hub and valid streams. registered are the streams before
      each call and at the end; exactly those registered before the first Shutdown have been closed,
      once each. */
  method Drive(maxPerUser: int, buffer: int, ops: seq<Op>)
    returns (hub: Hub, known: seq<Conn>, ghost stopped: set<Conn>, ghost registered: seq<set<Conn>>)
    ensures Reached(hub, Members(known), stopped)
    ensures hub.closed <==> Shutdown in ops
    ensures |registered| == |ops| + 1 && registered[|ops|] == hub.streams && MovesTo(registered, ops, |ops|, known)
    ensures forall j: nat :: FirstShutdown(ops, j) ==> stopped == registered[j]
    ensures Shutdown !in ops ==> stopped == {}
  {
    hub := new Hub(maxPerUser, buffer);
    known, stopped, registered := [], {}, [{}];
    for k := 0 to |ops|
      invariant fresh(hub) && (forall c :: c in known ==> fresh(c)) && Reached(hub, Members(known), stopped)
      invariant hub.closed <==> Shutdown in ops[..k]
      invariant |registered| == k + 1 && registered[k] == hub.streams && MovesTo(registered, ops, k, known)
      invariant forall j: nat :: j < k && FirstShutdown(ops, j) ==> stopped == registered[j]
    {
      ghost var all := Members(known);
      assert forall i :: 0 <= i < k ==> ops[i] == ops[..k][i];
      var conn;
      conn, stopped := Perform(hub, known, ops[k], all, stopped);
      var more := if conn.Ok? then [conn.value] else [];
      assert known + more == if conn.Ok? then known + [conn.value] else known;
      MovesOn(registered, ops, k, known, hub.streams, more);
      known, registered := known + more, registered + [hub.streams];
      assert Members(known) == if conn.Ok? then all + {conn.value} else all;
      assert ops[..k + 1] == ops[..k] + [ops[k]];
    }
    assert ops[..|ops|] == ops;
  }
}
