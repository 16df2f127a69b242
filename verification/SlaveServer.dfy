// The connection table of ModbusSlaveDrv: watched descriptors, highest descriptor and connection
// count, updated inside a loop whose own bound they change.
module SlaveServer {

  const MAX_NUM_MASTERS := 5
  const MAX_TRANSMISSION_TRYS := 3

  // What the network does during one pass: the descriptor a pending accept returns (or -1), and
  // for each client the length of its request (-1 when the connection is gone) and whether each
  // attempt at a reply succeeds.
  datatype Network = Network(accept: int, request: int -> int, reply: (int, nat) -> bool)

  // A connection is dropped when it is gone or after three failed replies, even when a fourth
  // succeeds.
  predicate Drops(net: Network, fd: int) {
    net.request(fd) == -1 ||
    (net.request(fd) > 0 && !net.reply(fd, 0) && !net.reply(fd, 1) && !net.reply(fd, 2))
  }

  // The table, with every descriptor obtained (by listening or accepting) and every close, in order.
  datatype Table = Table(server: int, watched: set<int>, fdmax: int, count: int, obtained: seq<int>, closed: seq<int>)

  // The descriptors of the masters connected.
  function Clients(t: Table): set<int> {
    t.watched - {t.server}
  }

  // While the server socket is open it is watched, no watched descriptor is above the bound, and
  // the counter is the number of masters connected, at most MAX_NUM_MASTERS.
  ghost predicate Sound(t: Table) {
    && t.server in t.watched
    && (forall fd | fd in t.watched :: 0 <= fd <= t.fdmax)
    && t.count == |Clients(t)| <= MAX_NUM_MASTERS
  }

  // Each descriptor obtained has been closed or is still watched, once for each time it was obtained.
  ghost predicate Books(t: Table) {
    multiset(t.obtained) == multiset(t.closed) + multiset(t.watched)
  }

  lemma Bounds(t: Table)
    requires Sound(t)
    ensures t.server in t.watched && forall fd | fd in t.watched :: 0 <= fd <= t.fdmax
  {}

  function Admit(t: Table, fd: int): Table {
    t.(watched := t.watched + {fd}, count := t.count + 1, fdmax := if fd > t.fdmax then fd else t.fdmax,
       obtained := t.obtained + [fd])
  }

  function Drop(t: Table, fd: int): Table {
    t.(watched := t.watched - {fd}, count := t.count - 1, fdmax := if fd == t.fdmax then t.fdmax - 1 else t.fdmax,
       closed := t.closed + [fd])
  }

  // What the loop does for one descriptor with something pending.
  function Turn(net: Network, t: Table, fd: int): Table {
    if fd == t.server then
      if t.count < MAX_NUM_MASTERS && net.accept != -1 then Admit(t, net.accept) else t
    else if Drops(net, fd) then Drop(t, fd)
    else t
  }

  function Advance(net: Network, t: Table, ready: set<int>, i: int): Table {
    if i in ready then Turn(net, t, i) else t
  }

  // The loop from descriptor i on. It ends although its bound moves: the bound only grows at the
  // server's turn.
  function Sweep(net: Network, t: Table, ready: set<int>, i: nat): Table
    decreases if i <= t.server then 1 else 0, t.fdmax - i
  {
    if i > t.fdmax then t else Sweep(net, Advance(net, t, ready, i), ready, i + 1)
  }

  // ---- the pass as a whole

  // The clients from i on with a pending request whose service fails.
  ghost function Failing(net: Network, t: Table, ready: set<int>, i: int): set<int> {
    set fd | fd in ready && fd != t.server && fd >= i && Drops(net, fd)
  }

  // What is still pending is still watched, and the descriptor to be accepted is not open by the
  // server's turn.
  ghost predicate Pending(net: Network, t: Table, ready: set<int>, i: int) {
    && (forall fd | fd in ready && fd >= i :: fd in t.watched)
    && -1 <= net.accept
    && (i <= t.server && net.accept in t.watched ==> net.accept in Failing(net, t, ready, i) && net.accept < t.server)
  }

  // The log of closes grew by the members of a set, each once.
  ghost predicate Closes(before: seq<int>, after: seq<int>, fds: set<int>) {
    before <= after && multiset(after) == multiset(before) + multiset(fds)
  }

  lemma ClosesOne(before: seq<int>, fd: int, after: seq<int>, fds: set<int>)
    requires fd !in fds && Closes(before + [fd], after, fds)
    ensures Closes(before, after, fds + {fd})
  {
    assert multiset(fds + {fd}) == multiset(fds) + multiset{fd};
    assert before <= before + [fd] <= after;
  }

  lemma AdvanceSound(net: Network, t: Table, ready: set<int>, i: int)
    requires Sound(t) && Pending(net, t, ready, i)
    ensures Sound(Advance(net, t, ready, i))
  {
    hide Drops, Failing, Sound;
    if i in ready {
      if i == t.server {
        NotYetOpen(net, t, ready);
        if t.count < MAX_NUM_MASTERS && net.accept != -1 { AdmitSound(t, net.accept); }
      } else if Drops(net, i) {
        DropSound(t, i);
      }
    }
  }

  lemma AdmitSound(t: Table, fd: int)
    requires Sound(t) && t.count < MAX_NUM_MASTERS && fd !in t.watched && fd >= 0
    ensures Sound(Admit(t, fd))
  {
    assert Clients(Admit(t, fd)) == Clients(t) + {fd};
  }

  lemma DropSound(t: Table, fd: int)
    requires Sound(t) && fd in t.watched && fd != t.server
    ensures Sound(Drop(t, fd))
  {
    assert Clients(Drop(t, fd)) == Clients(t) - {fd};
  }

  lemma NotYetOpen(net: Network, t: Table, ready: set<int>)
    requires Pending(net, t, ready, t.server)
    ensures net.accept !in t.watched
  {
    hide Drops;
  }

  lemma AdvancePending(net: Network, t: Table, ready: set<int>, i: int)
    requires Pending(net, t, ready, i)
    ensures Pending(net, Advance(net, t, ready, i), ready, i + 1)
  {
    hide Drops;
  }

  lemma AdvanceBooks(net: Network, t: Table, ready: set<int>, i: int)
    requires Books(t) && Pending(net, t, ready, i)
    ensures Books(Advance(net, t, ready, i))
  {
    hide Drops, Failing;
    var t' := Advance(net, t, ready, i);
    if i == t.server && t' != t {
      NotYetOpen(net, t, ready);
      assert multiset(t'.watched) == multiset(t.watched) + multiset{net.accept};
    } else if t' != t {
      assert t.watched == t'.watched + {i};
      assert multiset(t.watched) == multiset(t'.watched) + multiset{i};
    }
  }

  lemma {:induction false} SweepBooks(net: Network, t: Table, ready: set<int>, i: nat)
    requires Books(t) && Pending(net, t, ready, i)
    ensures Books(Sweep(net, t, ready, i))
    decreases if i <= t.server then 1 else 0, t.fdmax - i
  {
    hide Drops, Failing, Books;
    if i <= t.fdmax {
      AdvanceBooks(net, t, ready, i);
      AdvancePending(net, t, ready, i);
      SweepBooks(net, Advance(net, t, ready, i), ready, i + 1);
    }
  }

  lemma NextFailing(net: Network, t: Table, ready: set<int>, i: int)
    ensures Failing(net, t, ready, i)
      == if i in ready && i != t.server && Drops(net, i) then Failing(net, t, ready, i + 1) + {i}
         else Failing(net, t, ready, i + 1)
    ensures i !in Failing(net, t, ready, i + 1)
    ensures forall u: Table | u.server == t.server :: Failing(net, u, ready, i + 1) == Failing(net, t, ready, i + 1)
  {
    hide Drops;
  }

  lemma NoneFailing(net: Network, t: Table, ready: set<int>, i: int)
    requires Sound(t) && Pending(net, t, ready, i) && i > t.fdmax
    ensures Failing(net, t, ready, i) == {}
  {
    hide Drops;
  }

  lemma ClosesMore(before: seq<int>, after: seq<int>, fds: set<int>, fd: int)
    requires fd !in fds && Closes(before, after, fds)
    ensures Closes(before, after + [fd], fds + {fd})
  {
    assert multiset(fds + {fd}) == multiset(fds) + multiset{fd};
  }

  lemma ClosesNone(log: seq<int>)
    ensures Closes(log, log, {})
  {}

  // Every pass keeps the table sound and closes exactly the clients whose service fails, once each.
  lemma {:induction false} SweepSound(net: Network, t: Table, ready: set<int>, i: nat)
    requires Sound(t) && Pending(net, t, ready, i)
    ensures Sound(Sweep(net, t, ready, i)) && Sweep(net, t, ready, i).server == t.server
    ensures Closes(t.closed, Sweep(net, t, ready, i).closed, Failing(net, t, ready, i))
    decreases if i <= t.server then 1 else 0, t.fdmax - i
  {
    hide Drops, Failing, Closes, Sound;
    if i > t.fdmax {
      NoneFailing(net, t, ready, i);
      ClosesNone(t.closed);
    } else {
      var t' := Advance(net, t, ready, i);
      AdvanceSound(net, t, ready, i);
      AdvancePending(net, t, ready, i);
      SweepSound(net, t', ready, i + 1);
      NextFailing(net, t, ready, i);
      if i in ready && i != t.server && Drops(net, i) {
        ClosesOne(t.closed, i, Sweep(net, t', ready, i + 1).closed, Failing(net, t, ready, i + 1));
      }
    }
  }

  // The failing clients served before the server's turn.
  ghost function Before(net: Network, t: Table, ready: set<int>, i: int): set<int> {
    set fd | fd in ready && i <= fd < t.server && Drops(net, fd)
  }

  // The master taken in: one waits and, once the clients before it have been served, there is room.
  ghost function TakesIn(net: Network, t: Table, ready: set<int>, i: int): set<int> {
    if i <= t.server && t.server in ready && net.accept != -1 && t.count - |Before(net, t, ready, i)| < MAX_NUM_MASTERS
    then {net.accept} else {}
  }

  lemma NoneTakenIn(net: Network, t: Table, ready: set<int>, i: int)
    requires Sound(t) && i > t.fdmax
    ensures TakesIn(net, t, ready, i) == {}
  {}

  lemma NextTakesIn(net: Network, t: Table, ready: set<int>, i: int)
    ensures TakesIn(net, Advance(net, t, ready, i), ready, i + 1)
      == if i < t.server then TakesIn(net, t, ready, i) else {}
    ensures i >= t.server && i !in ready ==> TakesIn(net, t, ready, i) == {}
    ensures i > t.server ==> TakesIn(net, t, ready, i) == {}
  {
    hide Drops;
    var t' := Advance(net, t, ready, i);
    var b, b' := Before(net, t, ready, i), Before(net, t', ready, i + 1);
    if i < t.server && i in ready && Drops(net, i) {
      assert b == b' + {i} && i !in b';
    } else if i < t.server {
      assert b == b';
    }
  }

  lemma AfterTurn(net: Network, t: Table, ready: set<int>, i: int)
    requires Sound(t) && Pending(net, t, ready, i)
    ensures Clients(Advance(net, t, ready, i)) == if i == t.server then Clients(t) + TakesIn(net, t, ready, i)
      else if i in ready && Drops(net, i) then Clients(t) - {i} else Clients(t)
    ensures i == t.server ==> TakesIn(net, t, ready, i) !! Failing(net, t, ready, i + 1)
  {
    hide Drops;
    assert Before(net, t, ready, t.server) == {};
  }

  // After a pass the masters connected are those that did not fail and the one taken in.
  lemma {:induction false} SweepClients(net: Network, t: Table, ready: set<int>, i: nat)
    requires Sound(t) && Pending(net, t, ready, i)
    ensures Clients(Sweep(net, t, ready, i)) == Clients(t) - Failing(net, t, ready, i) + TakesIn(net, t, ready, i)
    decreases if i <= t.server then 1 else 0, t.fdmax - i
  {
    hide Drops, Failing, TakesIn, Sound;
    if i > t.fdmax {
      NoneFailing(net, t, ready, i);
      NoneTakenIn(net, t, ready, i);
    } else {
      var t' := Advance(net, t, ready, i);
      AdvanceSound(net, t, ready, i);
      AdvancePending(net, t, ready, i);
      AfterTurn(net, t, ready, i);
      SweepClients(net, t', ready, i + 1);
      NextFailing(net, t, ready, i);
      NextTakesIn(net, t, ready, i);
    }
  }

  // The client has nothing to say, or one of its first three replies goes out.
  predicate Answers(net: Network, fd: int) {
    net.request(fd) != -1 && (net.request(fd) <= 0 || net.reply(fd, 0) || net.reply(fd, 1) || net.reply(fd, 2))
  }

  // The client is gone, or its first three replies fail.
  predicate Lost(net: Network, fd: int) {
    net.request(fd) == -1
    || (net.request(fd) > 0 && !net.reply(fd, 0) && !net.reply(fd, 1) && !net.reply(fd, 2))
  }

  lemma LostOrAnswers(net: Network, fd: int)
    ensures Lost(net, fd) <==> !Answers(net, fd)
    ensures Drops(net, fd) <==> Lost(net, fd)
  {}

  // What a pass does to one client: one that is lost is closed, once, and watched no longer, unless
  // its descriptor has been handed out again; any other stays and is not closed. And there are never
  // more than five.
  lemma ClientsAreServed(net: Network, t: Table, ready: set<int>, fd: nat)
    requires Sound(t) && Pending(net, t, ready, 0) && fd != t.server
    ensures var t' := Sweep(net, t, ready, 0);
      && |t'.watched - {t'.server}| <= 5
      && (fd in ready && Lost(net, fd) ==>
            multiset(t'.closed)[fd] == multiset(t.closed)[fd] + 1 && (fd !in t'.watched || fd == net.accept))
      && (fd !in ready || Answers(net, fd) ==>
            multiset(t'.closed)[fd] == multiset(t.closed)[fd] && (fd in t.watched ==> fd in t'.watched))
      && (fd in ready ==> fd in t.watched)
  {
    hide Sweep, Pending, Drops, Lost, Answers, TakesIn;
    LostOrAnswers(net, fd);
    SweepSound(net, t, ready, 0);
    SweepClients(net, t, ready, 0);
    ReadyIsWatched(net, t, ready, fd);
    OnlyAccepted(net, t, ready);
    var t', failing := Sweep(net, t, ready, 0), Failing(net, t, ready, 0);
    assert multiset(t'.closed)[fd] == multiset(t.closed)[fd] + multiset(failing)[fd];
    assert fd in Clients(t') <==> fd in t'.watched;
  }

  // A waiting master is taken in whenever fewer than five are connected.
  lemma MasterIsTakenIn(net: Network, t: Table, ready: set<int>)
    requires Sound(t) && Pending(net, t, ready, 0) && t.server in ready && net.accept != -1
    requires |t.watched - {t.server}| < 5
    ensures net.accept in Sweep(net, t, ready, 0).watched
  {
    hide Sweep, Pending, Failing;
    SweepClients(net, t, ready, 0);
    assert net.accept in TakesIn(net, t, ready, 0);
  }

  lemma ReadyIsWatched(net: Network, t: Table, ready: set<int>, fd: nat)
    requires Pending(net, t, ready, 0)
    ensures fd in ready ==> fd in t.watched
  {}

  lemma OnlyAccepted(net: Network, t: Table, ready: set<int>)
    ensures TakesIn(net, t, ready, 0) <= {net.accept}
  {}

  // The loop that closes the clients from descriptor i on.
  function Shut(t: Table, i: nat): Table
    decreases t.fdmax - i
  {
    if i > t.fdmax then t
    else Shut(if i in Clients(t) then t.(watched := t.watched - {i}, closed := t.closed + [i]) else t, i + 1)
  }

  lemma NoClients(t: Table, i: nat)
    requires i > t.fdmax && forall fd | fd in t.watched && fd != t.server :: i <= fd <= t.fdmax
    ensures Clients(t) == {}
  {
    forall fd ensures fd !in Clients(t) {}
  }

  lemma {:induction false} ShutAll(t: Table, i: nat)
    requires forall fd | fd in t.watched && fd != t.server :: i <= fd <= t.fdmax
    ensures Shut(t, i).server == t.server && Shut(t, i).obtained == t.obtained
      && Closes(t.closed, Shut(t, i).closed, Clients(t))
    decreases t.fdmax - i
  {
    hide Closes;
    if i > t.fdmax {
      NoClients(t, i);
      ClosesNone(t.closed);
    } else if i in Clients(t) {
      var t' := t.(watched := t.watched - {i}, closed := t.closed + [i]);
      ShutAll(t', i + 1);
      assert Clients(t') + {i} == Clients(t);
      ClosesOne(t.closed, i, Shut(t', i + 1).closed, Clients(t'));
    } else {
      ShutAll(t, i + 1);
    }
  }

  lemma AllClosed(t: Table, t': Table)
    requires Books(t) && t'.obtained == t.obtained && t'.watched == {} && Closes(t.closed, t'.closed, t.watched)
    ensures Books(t') && multiset(t'.obtained) == multiset(t'.closed)
  {}

  // ---- the driver

  class ModbusSlaveDrv {
    var serverSock: int
    var refset: set<int>
    var fdmax: int
    var numConnections: int
    ghost var obtained: seq<int>
    ghost var closed: seq<int>

    ghost function TheTable(): Table
      reads this
    {
      Table(serverSock, refset, fdmax, numConnections, obtained, closed)
    }

    ghost predicate Valid()
      reads this
    {
      Books(TheTable()) && if serverSock == -1 then refset == {} && numConnections == 0 else Sound(TheTable())
    }

    constructor ()
      ensures Valid() && serverSock == -1 && obtained == closed == []
    {
      serverSock, fdmax, numConnections := -1, -1, 0;
      refset, obtained, closed := {}, [], [];
    }

    // modbus_tcp_listen gives a descriptor, or -1.
    method CreateServerSocket(listen: int) returns (ok: bool)
      requires Valid() && -1 <= listen
      modifies this
      ensures Valid() && ok == (serverSock != -1)
      ensures old(serverSock) != -1 || listen == -1 ==> TheTable() == old(TheTable())
      ensures old(serverSock) == -1 && listen != -1 ==>
        TheTable() == Table(listen, {listen}, listen, 0, old(obtained) + [listen], old(closed))
    {
      if serverSock == -1 {
        serverSock := listen;
        if serverSock == -1 { return false; }
        obtained := obtained + [listen];
        refset := {serverSock};
        fdmax := serverSock;
        numConnections := 0;
        assert Clients(TheTable()) == {};
      }
      return true;
    }

    // Replies to one request; tells whether the connection must be dropped.
    method Serve(net: Network, fd: int) returns (drop: bool)
      ensures drop == Drops(net, fd)
      ensures drop <==> net.request(fd) == -1
                        || (net.request(fd) > 0 && !net.reply(fd, 0) && !net.reply(fd, 1) && !net.reply(fd, 2))
    {
      var trys := 0;
      if net.request(fd) > 0 {
        var failed := !net.reply(fd, trys);
        while failed && trys < MAX_TRANSMISSION_TRYS
          invariant 0 <= trys <= MAX_TRANSMISSION_TRYS && failed == !net.reply(fd, trys)
          invariant forall k: nat | k < trys :: !net.reply(fd, k)
          decreases MAX_TRANSMISSION_TRYS - trys
        {
          trys := trys + 1;
          failed := !net.reply(fd, trys);
        }
        if failed { trys := trys + 1; }
      }
      drop := net.request(fd) == -1 || trys >= MAX_TRANSMISSION_TRYS;
    }

    // One pass over the descriptors select reported. Select reports watched descriptors only, and
    // a new descriptor is one not open when it is handed out.
    method ProcessPendingRequests(net: Network, readset: set<int>)
      requires Valid() && serverSock != -1 && Pending(net, TheTable(), readset, 0)
      modifies this
      ensures TheTable() == Sweep(net, old(TheTable()), readset, 0)
      ensures Valid() && serverSock == old(serverSock)
      ensures Closes(old(closed), closed, Failing(net, old(TheTable()), readset, 0))
      ensures forall fd: nat | fd in readset && fd != serverSock ::
                if Lost(net, fd) then fd !in refset || fd == net.accept else fd in refset
    {
      hide Closes, Failing, Sound, Drops, Books, Pending, Lost, Answers;
      ghost var t := TheTable();
      var i := 0;
      while i <= fdmax
        invariant 0 <= i && serverSock == old(serverSock)
        invariant Sweep(net, TheTable(), readset, i) == Sweep(net, t, readset, 0)
        decreases if i <= serverSock then 1 else 0, fdmax - i
      {
        if i in readset {
          if i == serverSock {
            if numConnections < MAX_NUM_MASTERS {
              var newSocket := net.accept;
              if newSocket != -1 {
                obtained := obtained + [newSocket];
                refset := refset + {newSocket};
                numConnections := numConnections + 1;
                if newSocket > fdmax { fdmax := newSocket; }
              }
            }
          } else {
            var drop := Serve(net, i);
            if drop {
              closed := closed + [i];
              refset := refset - {i};
              numConnections := numConnections - 1;
              if i == fdmax { fdmax := fdmax - 1; }
            }
          }
        }
        i := i + 1;
      }
      SweepSound(net, t, readset, 0);
      SweepBooks(net, t, readset, 0);
      forall fd: nat | fd in readset && fd != serverSock
        ensures if Lost(net, fd) then fd !in refset || fd == net.accept else fd in refset
      {
        ClientsAreServed(net, t, readset, fd);
        LostOrAnswers(net, fd);
      }
    }

    // Every connection still open is closed, once, and then the server socket: nothing obtained
    // so far is left open.
    method CloseSockets()
      requires Valid()
      modifies this
      ensures Valid() && serverSock == -1 && obtained == old(obtained)
      ensures multiset(obtained) == multiset(closed)
      ensures old(serverSock) == -1 ==> closed == old(closed)
      ensures old(serverSock) != -1 ==>
        Closes(old(closed), closed, old(refset)) && closed[|closed| - 1] == old(serverSock)
    {
      hide Sound, Closes, Books;
      ghost var t := TheTable();
      if serverSock != -1 {
        var fd := 0;
        while fd <= fdmax
          invariant 0 <= fd && Shut(TheTable(), fd) == Shut(t, 0)
          decreases fdmax - fd
        {
          if fd in refset && fd != serverSock {
            refset := refset - {fd};
            closed := closed + [fd];
          }
          fd := fd + 1;
        }
        Bounds(t);
        ShutAll(t, 0);
        ClosesMore(t.closed, closed, Clients(t), serverSock);
        assert Clients(t) + {serverSock} == t.watched;
        closed := closed + [serverSock];
        refset := {};
        numConnections := 0;
        serverSock := -1;
      } else {
        ClosesNone(closed);
      }
      AllClosed(t, TheTable());
    }
  }
}
