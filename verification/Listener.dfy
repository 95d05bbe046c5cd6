/**
 The listener's routing table (listener.go): connections by remote address and by connection
 ID, with migration, closing at any time, and registration in two phases, between which the
 lock is given up.
 */
module Listener {
  import opened Bytes

  type Addr = string
  type ConnId = seq<byte>

  // ----- the table as a value -----

  /** Connections are numbered in the order of their creation. */
  datatype Table = Table(
    connMap: map<Addr, nat>,
    connIDMap: map<ConnId, nat>,
    addrs: seq<Addr>,     // remote address of each connection
    closed: seq<bool>,
    pending: set<nat>)    // created, not yet registered

  const EMPTY := Table(map[], map[], [], [], {})

  const MIN_PACKET := 5
  const CONN_ID_LEN := 8

  /** What a packet shows of its destination; a short header holds the connection ID, if complete. */
  datatype Head = LongHeader | ShortHeader(id: Option<ConnId>)

  function HeadOf(data: seq<byte>): Head
    requires data != []
  {
    if data[0] >= 0x80 then LongHeader
    else if |data| < 1 + CONN_ID_LEN then ShortHeader(None)
    else ShortHeader(Some(data[1..1 + CONN_ID_LEN]))
  }

  datatype Outcome = Delivered(conn: nat) | Dropped | NeedsConnection

  predicate Live(t: Table, c: nat) { c < |t.addrs| == |t.closed| && !t.closed[c] }

  /** A packet from a new address moves the connection there. */
  function Migrate(t: Table, c: nat, addr: Addr): Table
    requires c < |t.addrs|
  {
    var oldKey := t.addrs[c];
    t.(connMap := if oldKey != addr then (t.connMap - {oldKey})[addr := c] else t.connMap,
       addrs := t.addrs[c := addr])
  }

  /** The first half of dispatchPacket, under the lock. */
  function Route(t: Table, addr: Addr, data: seq<byte>): (Table, Outcome)
    requires |t.addrs| == |t.closed|
  {
    if |data| < MIN_PACKET then (t, Dropped) else RouteTo(t, addr, HeadOf(data))
  }

  function RouteTo(t: Table, addr: Addr, head: Head): (Table, Outcome)
    requires |t.addrs| == |t.closed|
  {
    if addr in t.connMap && Live(t, t.connMap[addr]) then (t, Delivered(t.connMap[addr]))
    else if head.LongHeader? then (t, NeedsConnection)
    else if head.id.Some? && head.id.value in t.connIDMap && Live(t, t.connIDMap[head.id.value])
    then (Migrate(t, t.connIDMap[head.id.value], addr), Delivered(t.connIDMap[head.id.value]))
    else (t, Dropped)
  }

  function Create(t: Table, addr: Addr): Table {
    t.(addrs := t.addrs + [addr], closed := t.closed + [false], pending := t.pending + {|t.addrs|})
  }

  /** The second half: unless the address was taken meanwhile, the new connection is entered. */
  function Register(t: Table, c: nat, id: ConnId): (Table, Outcome)
    requires c < |t.addrs| == |t.closed|
  {
    var addr := t.addrs[c];
    var u := t.(pending := t.pending - {c});
    if addr in t.connMap && Live(t, t.connMap[addr]) then (u, Delivered(t.connMap[addr]))
    else (u.(connMap := t.connMap[addr := c], connIDMap := t.connIDMap[id := c]), Delivered(c))
  }

  function Close(t: Table, c: nat): Table
    requires c < |t.closed|
  {
    t.(closed := t.closed[c := true])
  }

  // ----- the invariant -----

  ghost predicate InRange(t: Table) {
    && |t.addrs| == |t.closed|
    && (forall k :: k in t.connMap ==> t.connMap[k] < |t.addrs|)
    && (forall id :: id in t.connIDMap ==> t.connIDMap[id] < |t.addrs|)
    && (forall c :: c in t.pending ==> c < |t.addrs|)
  }

  /** Every entry by address belongs to a connection of that address. */
  ghost predicate AddressesMatch(t: Table)
    requires InRange(t)
  {
    forall k :: k in t.connMap ==> t.addrs[t.connMap[k]] == k
  }

  /** Every live connection known by an ID is found under its present address. */
  ghost predicate LiveAreFound(t: Table)
    requires InRange(t)
  {
    forall id :: id in t.connIDMap && Live(t, t.connIDMap[id]) ==>
      t.addrs[t.connIDMap[id]] in t.connMap && t.connMap[t.addrs[t.connIDMap[id]]] == t.connIDMap[id]
  }

  /** A connection between its creation and its registration is in neither map. */
  ghost predicate PendingApart(t: Table) {
    && (forall k :: k in t.connMap ==> t.connMap[k] !in t.pending)
    && (forall id :: id in t.connIDMap ==> t.connIDMap[id] !in t.pending)
  }

  ghost predicate Inv(t: Table) {
    InRange(t) && AddressesMatch(t) && LiveAreFound(t) && PendingApart(t)
  }

  ghost predicate Registered(t: Table, c: nat) {
    (exists k :: k in t.connMap && t.connMap[k] == c) || (exists id :: id in t.connIDMap && t.connIDMap[id] == c)
  }

  lemma MigrateKeeps(t: Table, id: ConnId, addr: Addr)
    requires Inv(t) && id in t.connIDMap && Live(t, t.connIDMap[id])
    requires addr in t.connMap ==> !Live(t, t.connMap[addr])
    ensures Inv(Migrate(t, t.connIDMap[id], addr))
  {
    var c := t.connIDMap[id];
    var u := Migrate(t, c, addr);
    assert t.connMap[t.addrs[c]] == c;
    forall k | k in u.connMap ensures u.addrs[u.connMap[k]] == k {
      if k != addr {
        assert k in t.connMap && k != t.addrs[c];
        assert t.connMap[k] != c;
      }
    }
    forall i | i in u.connIDMap && Live(u, u.connIDMap[i])
      ensures u.addrs[u.connIDMap[i]] in u.connMap && u.connMap[u.addrs[u.connIDMap[i]]] == u.connIDMap[i]
    {
      var d := u.connIDMap[i];
      if d != c {
        assert Live(t, d) && t.connMap[t.addrs[d]] == d;
        assert t.addrs[d] != t.addrs[c] && t.addrs[d] != addr;
      }
    }
  }

  lemma RouteKeeps(t: Table, addr: Addr, data: seq<byte>)
    requires Inv(t)
    ensures Inv(Route(t, addr, data).0)
  {
    if |data| >= MIN_PACKET {
      RouteToKeeps(t, addr, HeadOf(data));
    }
  }

  lemma RouteToKeeps(t: Table, addr: Addr, head: Head)
    requires Inv(t)
    ensures Inv(RouteTo(t, addr, head).0)
  {
    if !(addr in t.connMap && Live(t, t.connMap[addr])) && head.ShortHeader? && head.id.Some? {
      if head.id.value in t.connIDMap && Live(t, t.connIDMap[head.id.value]) {
        MigrateKeeps(t, head.id.value, addr);
      }
    }
  }

  lemma CreateKeeps(t: Table, addr: Addr)
    requires Inv(t)
    ensures Inv(Create(t, addr)) && |t.addrs| in Create(t, addr).pending
  {
    var u := Create(t, addr);
    assert forall c :: 0 <= c < |t.addrs| ==> u.addrs[c] == t.addrs[c] && u.closed[c] == t.closed[c];
  }

  lemma RegisterKeeps(t: Table, c: nat, id: ConnId)
    requires Inv(t) && c in t.pending
    ensures Inv(Register(t, c, id).0)
  {
  }

  lemma CloseKeeps(t: Table, c: nat)
    requires Inv(t) && c < |t.addrs|
    ensures Inv(Close(t, c))
  {
  }

  // ----- concurrent runs -----

  /** What the dispatching goroutines and the connections do, each under the lock or atomically. */
  datatype Step =
    | Arrive(from: Addr, data: seq<byte>)
    | MakeConnection(to: Addr)
    | Enter(conn: nat, id: ConnId)
    | Shut(conn: nat)

  predicate Enabled(t: Table, step: Step) {
    && |t.addrs| == |t.closed|
    && (step.Enter? ==> step.conn in t.pending && step.conn < |t.addrs|)
    && (step.Shut? ==> step.conn < |t.addrs|)
  }

  function Do(t: Table, step: Step): Table
    requires Enabled(t, step)
  {
    match step
    case Arrive(from, data) => Route(t, from, data).0
    case MakeConnection(to) => Create(t, to)
    case Enter(conn, id) => Register(t, conn, id).0
    case Shut(conn) => Close(t, conn)
  }

  lemma StepKeeps(t: Table, step: Step)
    requires Inv(t) && Enabled(t, step)
    ensures Inv(Do(t, step))
  {
    match step
    case Arrive(from, data) => RouteKeeps(t, from, data);
    case MakeConnection(to) => CreateKeeps(t, to);
    case Enter(conn, id) => RegisterKeeps(t, conn, id);
    case Shut(conn) => CloseKeeps(t, conn);
  }

  /** The table after some steps; a step that cannot be taken changes nothing. */
  function After(steps: seq<Step>): Table
    decreases |steps|
  {
    if steps == [] then EMPTY
    else
      var t := After(steps[..|steps| - 1]);
      if Enabled(t, steps[|steps| - 1]) then Do(t, steps[|steps| - 1]) else t
  }

  /** The invariant holds in every run. */
  lemma {:induction false} RunKeeps(steps: seq<Step>)
    ensures Inv(After(steps))
    decreases |steps|
  {
    if steps != [] {
      var t := After(steps[..|steps| - 1]);
      RunKeeps(steps[..|steps| - 1]);
      if Enabled(t, steps[|steps| - 1]) {
        StepKeeps(t, steps[|steps| - 1]);
      }
    }
  }

  /**
   In every interleaving of arrivals, two-phase registrations, migrations and closings: a live
   registered connection is the one found under its address, so live registered connections
   and their addresses correspond one to one.
   */
  lemma LiveConnectionsAndAddresses(steps: seq<Step>, c: nat, d: nat)
    requires var t := After(steps); Registered(t, c) && Registered(t, d) && Live(t, c) && Live(t, d)
    ensures var t := After(steps);
            && t.addrs[c] in t.connMap && t.connMap[t.addrs[c]] == c
            && (t.addrs[c] == t.addrs[d] <==> c == d)
  {
    RunKeeps(steps);
    RegisteredIsFound(After(steps), c);
    RegisteredIsFound(After(steps), d);
  }

  lemma RegisteredIsFound(t: Table, c: nat)
    requires Inv(t) && Registered(t, c) && Live(t, c)
    ensures t.addrs[c] in t.connMap && t.connMap[t.addrs[c]] == c
  {
  }

  /**
   Where a packet goes, in any reachable table: to the owner of its address while that is live,
   whatever ID it bears; otherwise, under a short header, to the live connection of its ID,
   which moves to the address; and a new connection is asked for only under a long header and
   for an address that no live connection owns.
   */
  lemma PacketsReachTheirConnection(steps: seq<Step>, from: Addr, data: seq<byte>)
    requires |data| >= MIN_PACKET
    ensures var t := After(steps);
            |t.addrs| == |t.closed| &&
            var (u, outcome) := Route(t, from, data);
            && (outcome.Delivered? ==> Live(u, outcome.conn) && u.addrs[outcome.conn] == from
                                       && from in u.connMap && u.connMap[from] == outcome.conn)
            && (forall c: nat :: Registered(t, c) && Live(t, c) && t.addrs[c] == from ==>
                  outcome == Delivered(c) && u == t)
            && (outcome.NeedsConnection? ==> HeadOf(data).LongHeader?
                                             && forall c: nat :: Registered(t, c) && Live(t, c) ==> t.addrs[c] != from)
  {
    var t := After(steps);
    RunKeeps(steps);
    forall c: nat | Registered(t, c) && Live(t, c) && t.addrs[c] == from
      ensures Route(t, from, data) == (t, Delivered(c))
    {
      RegisteredIsFound(t, c);
    }
    DeliveredThere(t, from, HeadOf(data));
  }

  /** A live registered connection of this address. */
  ghost predicate Owns(t: Table, c: nat, from: Addr) { Registered(t, c) && Live(t, c) && t.addrs[c] == from }

  /** The packet has a short header with the ID of this connection, which is live. */
  ghost predicate Names(t: Table, c: nat, data: seq<byte>) {
    && |data| >= 9 && data[0] < 0x80
    && data[1..9] in t.connIDMap && t.connIDMap[data[1..9]] == c && Live(t, c)
  }

  /**
   Exactly where a packet goes, in any reachable table: to the connection that owns the address
   or, if none does, to the one that a short header names, which then is at this address; without
   an owner a long header asks for a new connection. Everything else is dropped, and so is a
   packet of fewer than five bytes; only the second case changes the table.
   */
  lemma RoutesExactly(steps: seq<Step>, from: Addr, data: seq<byte>)
    ensures var t := After(steps);
            |t.addrs| == |t.closed| &&
            var (u, outcome) := Route(t, from, data);
            var owned := exists d: nat :: Owns(t, d, from);
            && (forall c: nat :: outcome == Delivered(c) <==>
                                 |data| >= 5 && (Owns(t, c, from) || (!owned && Names(t, c, data))))
            && (outcome.NeedsConnection? <==> |data| >= 5 && data[0] >= 0x80 && !owned)
            && (owned || !outcome.Delivered? ==> u == t)
            && (!owned && outcome.Delivered? ==>
                  && outcome.conn < |t.addrs| && u.addrs == t.addrs[outcome.conn := from]
                  && (u.connIDMap, u.closed, u.pending) == (t.connIDMap, t.closed, t.pending))
  {
    var t := After(steps);
    RunKeeps(steps);
    if d: nat :| Owns(t, d, from) {
      RegisteredIsFound(t, d);
      forall c: nat | Owns(t, c, from) ensures c == d {
        RegisteredIsFound(t, c);
      }
    } else if from in t.connMap && Live(t, t.connMap[from]) {
      assert Owns(t, t.connMap[from], from);
    }
  }

  lemma DeliveredThere(t: Table, from: Addr, head: Head)
    requires Inv(t)
    ensures var (u, outcome) := RouteTo(t, from, head);
            outcome.Delivered? ==> Live(u, outcome.conn) && u.addrs[outcome.conn] == from
                                   && from in u.connMap && u.connMap[from] == outcome.conn
  {
  }

  /** A registration that loses the race changes nothing but is not entered anywhere. */
  lemma LateRegistration(steps: seq<Step>, c: nat, id: ConnId)
    requires c in After(steps).pending
    ensures var t := After(steps);
            c < |t.addrs| == |t.closed| &&
            var (u, outcome) := Register(t, c, id);
            && (outcome == Delivered(c)
                <==> forall d: nat :: Registered(t, d) && Live(t, d) ==> t.addrs[d] != t.addrs[c])
            && (forall d: nat :: Owns(t, d, t.addrs[c]) ==> outcome == Delivered(d))
            && (outcome == Delivered(c) ==> Registered(u, c) && u.connMap[t.addrs[c]] == c && u.connIDMap[id] == c)
            && (outcome != Delivered(c) ==> (u.connMap, u.connIDMap) == (t.connMap, t.connIDMap) && !Registered(u, c))
  {
    var t := After(steps);
    RunKeeps(steps);
    forall d: nat | Registered(t, d) && Live(t, d) && t.addrs[d] == t.addrs[c]
      ensures Register(t, c, id).1 == Delivered(d) && d != c
    {
      RegisteredIsFound(t, d);
    }
    assert id in t.connIDMap[id := c];
    if t.addrs[c] in t.connMap && Live(t, t.connMap[t.addrs[c]]) {
      assert Registered(t, t.connMap[t.addrs[c]]);
    }
  }

  /** A connection stays known under its ID, wherever it moves, until the ID is given out again. */
  lemma {:induction false} IdsStay(steps: seq<Step>, more: seq<Step>, id: ConnId)
    requires id in After(steps).connIDMap
    requires forall i :: 0 <= i < |more| ==> !(more[i].Enter? && more[i].id == id)
    ensures id in After(steps + more).connIDMap
    ensures After(steps + more).connIDMap[id] == After(steps).connIDMap[id]
    decreases |more|
  {
    if more == [] {
      assert steps + more == steps;
    } else {
      var fewer := more[..|more| - 1];
      assert (steps + more)[..|steps + more| - 1] == steps + fewer;
      assert (steps + more)[|steps + more| - 1] == more[|more| - 1];
      IdsStay(steps, fewer, id);
      RunKeeps(steps + fewer);
      if Enabled(After(steps + fewer), more[|more| - 1]) {
        IdStays(After(steps + fewer), more[|more| - 1], id);
      }
    }
  }

  lemma IdStays(t: Table, step: Step, id: ConnId)
    requires Inv(t) && Enabled(t, step) && id in t.connIDMap && !(step.Enter? && step.id == id)
    ensures id in Do(t, step).connIDMap && Do(t, step).connIDMap[id] == t.connIDMap[id]
  {
  }

  // ----- the listener object -----

  class ServerConn {
    ghost const number: nat
    var remoteAddr: Addr
    var closed: bool

    constructor (ghost number: nat, remoteAddr: Addr)
      ensures this.number == number && this.remoteAddr == remoteAddr && !closed
    {
      this.number, this.remoteAddr, closed := number, remoteAddr, false;
    }
  }

  ghost function Numbers<K>(m: map<K, ServerConn>): (r: map<K, nat>)
    ensures r.Keys == m.Keys && forall k :: k in m ==> r[k] == m[k].number
  {
    map k | k in m :: m[k].number
  }

  lemma NumbersMoved<K>(m: map<K, ServerConn>, k: K, c: ServerConn)
    ensures Numbers(m[k := c]) == Numbers(m)[k := c.number]
    ensures Numbers(m - {k}) == Numbers(m) - {k}
  {
  }

  class Server {
    var connMap: map<Addr, ServerConn>
    var connIDMap: map<ConnId, ServerConn>
    ghost var all: seq<ServerConn>
    ghost var pending: set<nat>

    ghost predicate Known(c: ServerConn)
      reads this
    {
      c.number < |all| && all[c.number] == c
    }

    ghost predicate Valid()
      reads this
    {
      && (forall i :: 0 <= i < |all| ==> all[i].number == i)
      && (forall k :: k in connMap ==> Known(connMap[k]))
      && (forall id :: id in connIDMap ==> Known(connIDMap[id]))
    }

    ghost function View(): Table
      reads this, all
    {
      Table(Numbers(connMap), Numbers(connIDMap),
            seq(|all|, i requires 0 <= i < |all| reads this, all => all[i].remoteAddr),
            seq(|all|, i requires 0 <= i < |all| reads this, all => all[i].closed), pending)
    }

    constructor ()
      ensures Valid() && View() == EMPTY
    {
      connMap, connIDMap, all, pending := map[], map[], [], {};
    }

    method CloseConnection(c: ServerConn)
      requires Valid() && Known(c)
      modifies c`closed
      ensures Valid() && View() == Close(old(View()), c.number)
    {
      c.closed := true;
      assert View().closed == old(View()).closed[c.number := true];
    }

    method NewConnection(remoteAddr: Addr) returns (c: ServerConn)
      requires Valid()
      modifies this`all, this`pending
      ensures Valid() && fresh(c) && Known(c) && c.number == old(|all|)
      ensures View() == Create(old(View()), remoteAddr)
    {
      ghost var before := View();
      c := new ServerConn(|all|, remoteAddr);
      all, pending := all + [c], pending + {|all|};
      assert View().addrs == before.addrs + [remoteAddr] && View().closed == before.closed + [false];
    }

    method MoveEntry(c: ServerConn, oldKey: Addr, newKey: Addr)
      requires Valid() && Known(c)
      modifies this`connMap
      ensures Valid()
      ensures View() == old(View()).(connMap := (old(View()).connMap - {oldKey})[newKey := c.number])
    {
      NumbersMoved(connMap, oldKey, c);
      connMap := connMap - {oldKey};
      NumbersMoved(connMap, newKey, c);
      connMap := connMap[newKey := c];
    }

    method SetAddress(c: ServerConn, addr: Addr)
      requires Valid() && Known(c)
      modifies c`remoteAddr
      ensures Valid() && View() == old(View()).(addrs := old(View()).addrs[c.number := addr])
    {
      c.remoteAddr := addr;
      assert View().addrs == old(View()).addrs[c.number := addr];
    }

    /** A packet from a new address: the connection's entry moves there. */
    method MoveTo(c: ServerConn, addr: Addr)
      requires Valid() && Known(c)
      modifies this`connMap, c`remoteAddr
      ensures Valid() && View() == Migrate(old(View()), c.number, addr)
    {
      assert View().addrs[c.number] == c.remoteAddr;
      var oldAddrKey := c.remoteAddr;
      if oldAddrKey != addr {
        MoveEntry(c, oldAddrKey, addr);
      }
      SetAddress(c, addr);
    }

    /** Whether this is what became of the packet. */
    ghost predicate Is(outcome: Outcome, target: Option<ServerConn>, create: bool)
      reads this
    {
      match outcome
      case Delivered(n) => target.Some? && Known(target.value) && target.value.number == n && !create
      case Dropped => target.None? && !create
      case NeedsConnection => target.None? && create
    }

    /** The first half of dispatchPacket; `create` asks for a new connection. */
    method DispatchPacket(data: seq<byte>, remoteAddr: Addr) returns (target: Option<ServerConn>, create: bool)
      requires Valid()
      modifies this`connMap, all`remoteAddr
      ensures Valid() && View() == Route(old(View()), remoteAddr, data).0
      ensures Is(Route(old(View()), remoteAddr, data).1, target, create)
    {
      if |data| < MIN_PACKET {
        return None, false;
      }
      if remoteAddr in connMap && !connMap[remoteAddr].closed {
        return Some(connMap[remoteAddr]), false;
      }
      if data[0] >= 0x80 {
        return None, true;
      }
      if |data| >= 1 + CONN_ID_LEN {
        var destConnID := data[1..1 + CONN_ID_LEN];
        if destConnID in connIDMap && !connIDMap[destConnID].closed {
          var migConn := connIDMap[destConnID];
          MoveTo(migConn, remoteAddr);
          return Some(migConn), false;
        }
      }
      return None, false;
    }

    method EnterBoth(c: ServerConn, addrKey: Addr, id: ConnId)
      requires Valid() && Known(c)
      modifies this`connMap, this`connIDMap
      ensures Valid()
      ensures View() == old(View()).(connMap := old(View()).connMap[addrKey := c.number],
                                     connIDMap := old(View()).connIDMap[id := c.number])
    {
      NumbersMoved(connMap, addrKey, c);
      NumbersMoved(connIDMap, id, c);
      connMap := connMap[addrKey := c];
      connIDMap := connIDMap[id := c];
    }

    /** The second half: the connection made without the lock is entered in both maps. */
    method RegisterConnection(c: ServerConn, id: ConnId) returns (target: ServerConn)
      requires Valid() && Known(c)
      modifies this`connMap, this`connIDMap, this`pending
      ensures Valid() && View() == Register(old(View()), c.number, id).0
      ensures Known(target) && Register(old(View()), c.number, id).1 == Delivered(target.number)
    {
      var addrKey := c.remoteAddr;
      pending := pending - {c.number};
      if addrKey in connMap && !connMap[addrKey].closed {
        return connMap[addrKey];
      }
      EnterBoth(c, addrKey, id);
      target := c;
    }
  }
}
