/** The TCP connection pool as a state machine: which moves it can make, and what every state it reaches satisfies. */
module Pools {

  datatype Host = Host(host: string, port: nat)

  /** `updated` is set by the first change of the host list. From then on the list holds copies, and the comparison by
      reference that would put the host of a closed connection back on the free list never succeeds: the host goes to
      `lost`, which stands for no part of the source's state, and stays there until the list drops it. */
  datatype Pool = Pool(
    size: nat, hosts: set<Host>, updated: bool, closed: bool,
    free: set<Host>, connecting: set<Host>, connected: set<Host>, lost: set<Host>)

  function Active(s: Pool): nat {
    |s.connected| + |s.connecting|
  }

  /// Moves

  /** Connect to any free host, unless there are enough connections or no free host. */
  ghost predicate Connects(s: Pool, t: Pool) {
    if Active(s) >= s.size || s.free == {} then t == s
    else exists h :: h in s.free && t == Taken(s, h)
  }

  function Taken(s: Pool, h: Host): Pool {
    s.(free := s.free - {h}, connecting := s.connecting + {h})
  }

  function Dropped(s: Pool, h: Host): Pool {
    s.(connecting := s.connecting - {h}, connected := s.connected - {h},
       free := if !s.updated && h in s.hosts then s.free + {h} else s.free,
       lost := if s.updated && h in s.hosts then s.lost + {h} else s.lost)
  }

  /** A connection closes; an open pool looks for a replacement. */
  ghost predicate Closes(s: Pool, t: Pool, h: Host) {
    if s.closed || Active(Dropped(s, h)) >= s.size then t == Dropped(s, h)
    else Connects(Dropped(s, h), t)
  }

  function Readied(s: Pool, h: Host): Pool {
    s.(connecting := s.connecting - {h}, connected := s.connected + {h})
  }

  function Relisted(s: Pool, hosts: set<Host>): Pool {
    s.(hosts := hosts, updated := true, free := s.free + (hosts - s.hosts) - (s.hosts - hosts), lost := s.lost * hosts)
  }

  /** The connections to hosts that have left the list are closed one after the other, each with its replacement. */
  ghost predicate ClosesEach(s: Pool, t: Pool, dead: seq<Host>)
    decreases |dead|
  {
    if dead == [] then t == s
    else exists u :: ClosesIfOpen(s, u, dead[0]) && ClosesEach(u, t, dead[1..])
  }

  ghost predicate ClosesIfOpen(s: Pool, t: Pool, h: Host) {
    if h in s.connecting || h in s.connected then Closes(s, t, h) else t == s
  }

  ghost predicate ConnectsTimes(s: Pool, t: Pool, n: nat)
    decreases n
  {
    if n == 0 then t == s
    else exists u :: Connects(s, u) && ConnectsTimes(u, t, n - 1)
  }

  function Missing(s: Pool): nat {
    var additional := s.size - Active(s);
    if additional <= 0 then 0 else if additional < |s.free| then additional else |s.free|
  }

  ghost predicate Updates(s: Pool, t: Pool, hosts: set<Host>, dead: seq<Host>) {
    && (forall h :: h in dead <==> h in s.hosts - hosts)
    && exists u :: ClosesEach(Relisted(s, hosts), u, dead) && ConnectsTimes(u, t, Missing(u))
  }

  function Empty(size: nat, hosts: set<Host>): Pool {
    Pool(size, hosts, false, false, hosts, {}, {}, {})
  }

  /** One event from outside, together with everything the pool does in answer. */
  ghost predicate Next(s: Pool, t: Pool) {
    || (exists h :: (h in s.connecting || h in s.connected) && Closes(s, t, h))
    || (exists h :: h in s.connecting && t == Readied(s, h))
    || (exists hosts, dead :: Updates(s, t, hosts, dead))
    || t == s.(closed := true)
  }

  ghost predicate Initial(s: Pool) {
    s.size > 0 && ConnectsTimes(Empty(s.size, s.hosts), s, s.size)
  }

  /// What holds

  /** No host is in two places, and all are on the list but for connections to hosts that are `leaving`. */
  ghost predicate Partition(s: Pool, leaving: set<Host>) {
    && (forall h | h in s.free :: h in s.hosts && h !in s.connecting && h !in s.connected && h !in leaving)
    && (forall h | h in s.lost :: h in s.hosts && !Placed(s, h) && h !in leaving)
    && (forall h | h in s.connecting :: h !in s.connected && (h in s.hosts || h in leaving))
    && (forall h | h in s.connected :: h in s.hosts || h in leaving)
    && Active(s) <= s.size
  }

  predicate Placed(s: Pool, h: Host) {
    h in s.free || h in s.connecting || h in s.connected
  }

  /** Every host on the list is somewhere, and none has been lost while the list is the original one. */
  ghost predicate Covers(s: Pool) {
    && (forall h | h in s.hosts :: Placed(s, h) || h in s.lost)
    && (!s.updated ==> s.lost == {})
  }

  predicate Saturated(s: Pool) {
    !s.closed ==> Active(s) == s.size || s.free == {}
  }

  ghost predicate Settled(s: Pool) {
    Partition(s, {}) && Covers(s) && Saturated(s)
  }

  lemma TakenKeeps(s: Pool, h: Host, leaving: set<Host>)
    requires Partition(s, leaving) && Covers(s) && h in s.free && Active(s) < s.size
    ensures var t := Taken(s, h);
            Partition(t, leaving) && Covers(t) && Active(t) == Active(s) + 1 && |t.free| == |s.free| - 1
  {
    var t := Taken(s, h);
    assert h !in s.connecting;
    assert forall x | Placed(s, x) :: Placed(t, x);
  }

  lemma ConnectKeeps(s: Pool, t: Pool, leaving: set<Host>)
    requires Partition(s, leaving) && Covers(s) && Connects(s, t)
    ensures Partition(t, leaving) && Covers(t) && SameList(s, t)
    ensures Active(s) < s.size && s.free != {} ==> Active(t) == Active(s) + 1 && |t.free| == |s.free| - 1
  {
    if Active(s) < s.size && s.free != {} {
      var h :| h in s.free && t == Taken(s, h);
      TakenKeeps(s, h, leaving);
    }
  }

  predicate SameList(s: Pool, t: Pool) {
    t.size == s.size && t.hosts == s.hosts && t.updated == s.updated && t.closed == s.closed
  }

  lemma DropKeepsPartition(s: Pool, h: Host, leaving: set<Host>)
    requires Partition(s, leaving) && (h in s.connecting || h in s.connected)
    requires h in leaving ==> s.updated
    ensures Partition(Dropped(s, h), leaving - {h})
  {
    DropCounts(s, h);
  }

  lemma DropKeepsCovers(s: Pool, h: Host, leaving: set<Host>)
    requires Partition(s, leaving) && Covers(s) && (h in s.connecting || h in s.connected)
    ensures Covers(Dropped(s, h))
  {
    var t := Dropped(s, h);
    forall x | x in t.hosts
      ensures Placed(t, x) || x in t.lost
    {
      assert Placed(s, x) || x in s.lost;
    }
  }

  lemma DropKeeps(s: Pool, h: Host, leaving: set<Host>)
    requires Partition(s, leaving) && Covers(s) && (h in s.connecting || h in s.connected)
    requires h in leaving ==> s.updated
    ensures var t := Dropped(s, h);
            && Partition(t, leaving - {h}) && Covers(t) && SameList(s, t)
            && Active(t) == Active(s) - 1
            && (Saturated(s) && !s.closed ==> Active(s) == s.size || t.free <= {h})
  {
    DropKeepsPartition(s, h, leaving);
    DropKeepsCovers(s, h, leaving);
    DropCounts(s, h);
  }

  lemma DropCounts(s: Pool, h: Host)
    requires h in s.connecting <==> h !in s.connected
    ensures Active(Dropped(s, h)) == Active(s) - 1
  {
    if h in s.connecting {
      assert s.connected - {h} == s.connected;
    } else {
      assert s.connecting - {h} == s.connecting;
    }
  }

  lemma CloseKeeps(s: Pool, t: Pool, h: Host, leaving: set<Host>)
    requires Partition(s, leaving) && Covers(s) && (h in s.connecting || h in s.connected) && Closes(s, t, h)
    requires h in leaving ==> s.updated
    ensures Partition(t, leaving - {h}) && Covers(t) && SameList(s, t)
    ensures Saturated(s) ==> Saturated(t)
  {
    var r := Dropped(s, h);
    DropKeeps(s, h, leaving);
    if !s.closed && Active(r) < s.size {
      ConnectKeeps(r, t, leaving - {h});
    }
  }

  lemma {:induction false} CloseEachKeeps(s: Pool, t: Pool, dead: seq<Host>, leaving: set<Host>)
    requires Partition(s, leaving) && Covers(s) && s.updated && ClosesEach(s, t, dead)
    requires forall h | h in leaving :: h in dead
    ensures Partition(t, {}) && Covers(t) && SameList(s, t)
    decreases |dead|
  {
    if dead != [] {
      var u :| ClosesIfOpen(s, u, dead[0]) && ClosesEach(u, t, dead[1..]);
      CloseIfOpenKeeps(s, u, dead[0], leaving);
      forall h | h in leaving - {dead[0]}
        ensures h in dead[1..]
      {
        InTail(dead, h);
      }
      CloseEachKeeps(u, t, dead[1..], leaving - {dead[0]});
    }
  }

  lemma InTail(hosts: seq<Host>, h: Host)
    requires h in hosts && h != hosts[0]
    ensures h in hosts[1..]
  {
    var i :| 0 <= i < |hosts| && hosts[i] == h;
    assert hosts[1..][i - 1] == h;
  }

  lemma CloseIfOpenKeeps(s: Pool, t: Pool, h: Host, leaving: set<Host>)
    requires Partition(s, leaving) && Covers(s) && s.updated && ClosesIfOpen(s, t, h)
    ensures Partition(t, leaving - {h}) && Covers(t) && SameList(s, t)
  {
    if h in s.connecting || h in s.connected {
      CloseKeeps(s, t, h, leaving);
    }
  }

  lemma {:induction false} ConnectTimesKeeps(s: Pool, t: Pool, n: nat)
    requires Partition(s, {}) && Covers(s) && ConnectsTimes(s, t, n)
    ensures Partition(t, {}) && Covers(t) && SameList(s, t)
    ensures n >= Missing(s) ==> Active(t) == t.size || t.free == {}
    decreases n
  {
    if n > 0 {
      var u :| Connects(s, u) && ConnectsTimes(u, t, n - 1);
      ConnectKeeps(s, u, {});
      ConnectTimesKeeps(u, t, n - 1);
    }
  }

  /** Changing the host list settles again: the hosts that left are gone everywhere, replaced as far as the new list
      allows. */
  lemma UpdateSettles(s: Pool, t: Pool, hosts: set<Host>, dead: seq<Host>)
    requires Settled(s) && Updates(s, t, hosts, dead)
    ensures Partition(t, {}) && Covers(t) && Saturated(t) && t.hosts == hosts && t.size == s.size
  {
    var u :| ClosesEach(Relisted(s, hosts), u, dead) && ConnectsTimes(u, t, Missing(u));
    var r := Relisted(s, hosts);
    var leaving := s.hosts - hosts;
    assert Partition(r, leaving);
    CloseEachKeeps(r, u, dead, leaving);
    ConnectTimesKeeps(u, t, Missing(u));
  }

  lemma InitialSettles(s: Pool)
    requires Initial(s)
    ensures Settled(s)
  {
    ConnectTimesKeeps(Empty(s.size, s.hosts), s, s.size);
  }

  lemma NextSettles(s: Pool, t: Pool)
    requires Settled(s) && Next(s, t)
    ensures Settled(t) && t.size == s.size
  {
    if h :| (h in s.connecting || h in s.connected) && Closes(s, t, h) {
      CloseSettles(s, t, h);
    } else if h :| h in s.connecting && t == Readied(s, h) {
      ReadyKeeps(s, h);
    } else if hosts, dead :| Updates(s, t, hosts, dead) {
      UpdateSettles(s, t, hosts, dead);
    } else {
      ShutSettles(s);
    }
  }

  lemma CloseSettles(s: Pool, t: Pool, h: Host)
    requires Settled(s) && (h in s.connecting || h in s.connected) && Closes(s, t, h)
    ensures Settled(t) && t.size == s.size
  {
    CloseKeeps(s, t, h, {});
  }

  lemma ShutSettles(s: Pool)
    requires Settled(s)
    ensures Settled(s.(closed := true))
  {
    var t := s.(closed := true);
    assert forall x | Placed(s, x) :: Placed(t, x);
  }

  lemma ReadyKeeps(s: Pool, h: Host)
    requires Settled(s) && h in s.connecting
    ensures Settled(Readied(s, h))
  {
    var t := Readied(s, h);
    assert forall x | Placed(s, x) :: Placed(t, x);
  }

  ghost predicate Trace(states: seq<Pool>) {
    && (states != [] ==> Initial(states[0]))
    && forall i: nat | 0 < i < |states| :: StepAt(states, i)
  }

  ghost predicate StepAt(states: seq<Pool>, i: nat)
    requires 0 < i < |states|
  {
    Next(states[i - 1], states[i])
  }

  /** Pool saturation and partition, for every run: between events an open pool holds as many connections as it may, or
      has no free host; nothing is in two places; and while the host list has not changed, every host is in one. */
  lemma {:induction false} AlwaysSettled(states: seq<Pool>, i: nat)
    requires Trace(states) && i < |states|
    ensures Settled(states[i])
  {
    if i == 0 {
      InitialSettles(states[0]);
    } else {
      AlwaysSettled(states, i - 1);
      StepSettles(states, i);
    }
  }

  lemma StepSettles(states: seq<Pool>, i: nat)
    requires Trace(states) && 0 < i < |states| && Settled(states[i - 1])
    ensures Settled(states[i])
  {
    assert StepAt(states, i);
    NextSettles(states[i - 1], states[i]);
  }

  /// What each event does, exactly

  /** The host of a connection that closes is free again only while the list is the original one. */
  function FreedBy(s: Pool, h: Host): set<Host> {
    s.free + if s.updated then {} else {h}
  }

  /** The connection of `h` has gone, and `more` are the hosts newly connected to. */
  predicate Replaced(s: Pool, t: Pool, h: Host, more: set<Host>) {
    && t.connected == s.connected - {h} && t.connecting == s.connecting - {h} + more
    && t.free == FreedBy(s, h) - more && more <= FreedBy(s, h)
    && t.hosts == s.hosts && t.size == s.size && t.updated == s.updated && t.closed == s.closed
  }

  /** A close on every run: a closed pool never connects in answer. An open one connects to exactly one free host if there
      is any, the host that has just become free among them, and to none otherwise. */
  lemma {:induction false} CloseExactly(states: seq<Pool>, i: nat, t: Pool, h: Host)
    requires Trace(states) && i < |states|
    requires var s := states[i]; (h in s.connecting || h in s.connected) && Closes(s, t, h)
    ensures var s := states[i];
            if s.closed || FreedBy(s, h) == {} then Replaced(s, t, h, {})
            else exists x :: x in FreedBy(s, h) && Replaced(s, t, h, {x})
  {
    AlwaysSettled(states, i);
    RoomAfterClose(states[i], h);
    CloseHere(states[i], t, h);
  }

  lemma RoomAfterClose(s: Pool, h: Host)
    requires Settled(s) && (h in s.connecting || h in s.connected)
    ensures h in s.hosts && Active(Dropped(s, h)) < s.size
  {
    DropCounts(s, h);
  }

  lemma CloseHere(s: Pool, t: Pool, h: Host)
    requires h in s.hosts && Active(Dropped(s, h)) < s.size && Closes(s, t, h)
    ensures if s.closed || FreedBy(s, h) == {} then Replaced(s, t, h, {})
            else exists x :: x in FreedBy(s, h) && Replaced(s, t, h, {x})
  {
    var r := Dropped(s, h);
    DropReplaces(s, h);
    if !s.closed && r.free != {} {
      assert Connects(r, t);
      var x := TakesOne(r, t);
      TakenReplaces(s, h, x);
    }
  }

  lemma TakesOne(r: Pool, t: Pool) returns (x: Host)
    requires Connects(r, t) && Active(r) < r.size && r.free != {}
    ensures x in r.free && t == Taken(r, x)
  {
    x :| x in r.free && t == Taken(r, x);
  }

  lemma DropReplaces(s: Pool, h: Host)
    requires h in s.hosts
    ensures Dropped(s, h).free == FreedBy(s, h) && Replaced(s, Dropped(s, h), h, {})
  {}

  lemma TakenReplaces(s: Pool, h: Host, x: Host)
    requires h in s.hosts && x in Dropped(s, h).free
    ensures x in FreedBy(s, h) && Replaced(s, Taken(Dropped(s, h), x), h, {x})
  {}

  /** The first connections: as many as the pool may hold and the list allows, none of them ready. */
  lemma InitialExactly(s: Pool)
    requires Initial(s)
    ensures !s.closed && !s.updated && s.connected == {} && s.lost == {}
    ensures s.connecting + s.free == s.hosts && s.connecting !! s.free
    ensures |s.connecting| == s.size || (s.free == {} && |s.connecting| < s.size)
  {
    InitialSettles(s);
    ConnectingOnly(Empty(s.size, s.hosts), s, s.size);
    assert forall h | h in s.hosts :: Placed(s, h) || h in s.lost;
  }

  /** Ready connections and lost hosts are left alone, and what was connecting stays so. */
  predicate MoreConnecting(s: Pool, t: Pool) {
    t.connected == s.connected && s.connecting <= t.connecting && t.lost == s.lost && SameList(s, t)
  }

  lemma {:induction false} ConnectingOnly(s: Pool, t: Pool, n: nat)
    requires ConnectsTimes(s, t, n)
    ensures MoreConnecting(s, t)
    decreases n
  {
    if n > 0 {
      var u :| Connects(s, u) && ConnectsTimes(u, t, n - 1);
      OneConnecting(s, u);
      ConnectingOnly(u, t, n - 1);
      ThenMore(s, u, t);
    }
  }

  lemma ThenMore(s: Pool, u: Pool, t: Pool)
    requires MoreConnecting(s, u) && MoreConnecting(u, t)
    ensures MoreConnecting(s, t)
  {}

  lemma OneConnecting(s: Pool, u: Pool)
    requires Connects(s, u)
    ensures MoreConnecting(s, u)
  {
    if u != s {
      var h :| h in s.free && u == Taken(s, h);
    }
  }

  /** Closing the connections of hosts that have left the list touches no other connection. */
  lemma {:induction false} ClosingOnly(s: Pool, t: Pool, dead: seq<Host>)
    requires ClosesEach(s, t, dead)
    requires forall h :: h in dead ==> h !in s.hosts && h !in s.free
    requires forall h :: h in s.free ==> h in s.hosts
    ensures forall h :: h in t.connected <==> h in s.connected && h !in dead
    ensures forall h :: h in s.connecting && h !in dead ==> h in t.connecting
    ensures t.lost == s.lost && SameList(s, t)
    decreases |dead|
  {
    if dead != [] {
      var u :| ClosesIfOpen(s, u, dead[0]) && ClosesEach(u, t, dead[1..]);
      OneClosed(s, u, dead[0]);
      forall h
        ensures h in dead <==> h == dead[0] || h in dead[1..]
      {
        if h in dead && h != dead[0] {
          InTail(dead, h);
        }
      }
      ClosingOnly(u, t, dead[1..]);
    }
  }

  lemma OneClosed(s: Pool, u: Pool, h: Host)
    requires ClosesIfOpen(s, u, h) && h !in s.hosts
    ensures u.connected == s.connected - {h} && s.connecting - {h} <= u.connecting
    ensures u.free <= s.free && u.lost == s.lost && SameList(s, u)
  {}

  /** A change of the host list on every run: exactly the connections to hosts that have left are closed, the others go
      on as they were; a host that was lost stays so while listed; and, closed or not, the pool is full afterwards or has
      no host left to connect to. */
  lemma {:induction false} UpdateExactly(states: seq<Pool>, i: nat, t: Pool, hosts: set<Host>, dead: seq<Host>)
    requires Trace(states) && i < |states| && Updates(states[i], t, hosts, dead)
    ensures var s := states[i];
            && t.hosts == hosts && t.updated && t.closed == s.closed && t.size == s.size
            && t.connected == s.connected * hosts
            && s.connecting * hosts <= t.connecting <= hosts
            && t.lost == s.lost * hosts
            && (Active(t) == t.size || t.free == {})
  {
    AlwaysSettled(states, i);
    UpdateHere(states[i], t, hosts, dead);
  }

  lemma UpdateHere(s: Pool, t: Pool, hosts: set<Host>, dead: seq<Host>)
    requires Settled(s) && Updates(s, t, hosts, dead)
    ensures t.hosts == hosts && t.updated && t.closed == s.closed && t.size == s.size
    ensures t.connected == s.connected * hosts
    ensures s.connecting * hosts <= t.connecting <= hosts
    ensures t.lost == s.lost * hosts
    ensures Active(t) == t.size || t.free == {}
  {
    var r := Relisted(s, hosts);
    var u :| ClosesEach(r, u, dead) && ConnectsTimes(u, t, Missing(u));
    assert Partition(r, s.hosts - hosts) && Covers(r);
    CloseEachKeeps(r, u, dead, s.hosts - hosts);
    ConnectTimesKeeps(u, t, Missing(u));
    ClosingOnly(r, u, dead);
    ConnectingOnly(u, t, Missing(u));
    assert forall h | h in s.connected :: h in dead <==> h !in hosts;
  }

  /** A connection becomes ready: it moves from the opening ones to the open ones, and that is all. */
  lemma {:induction false} ReadyExactly(states: seq<Pool>, i: nat, h: Host)
    requires Trace(states) && i < |states| && h in states[i].connecting
    ensures var (s, t) := (states[i], Readied(states[i], h));
            && t.connecting + {h} == s.connecting && h !in t.connecting
            && s.connected + {h} == t.connected && h !in s.connected
            && t.free == s.free && t.lost == s.lost && SameList(s, t) && Active(t) == Active(s)
  {
    AlwaysSettled(states, i);
    var (s, t) := (states[i], Readied(states[i], h));
    assert t.connecting + {h} == s.connecting;
  }

  /// Lost hosts

  /** All hosts are accounted for: the four places are disjoint and make up the host list. */
  lemma {:induction false} HostsAccountedFor(states: seq<Pool>, i: nat)
    requires Trace(states) && i < |states|
    ensures var s := states[i];
            && s.free !! s.connecting !! s.connected !! s.lost
            && s.free + s.connecting + s.connected + s.lost == s.hosts
            && (!s.updated ==> s.lost == {})
  {
    AlwaysSettled(states, i);
    var s := states[i];
    assert forall h | h in s.hosts :: Placed(s, h) || h in s.lost;
    assert s.free + s.connecting + s.connected + s.lost == s.hosts;
  }

  /** A connection that closes loses its host if and only if the host list has been changed before: after the close, and
      whatever reconnects in answer, the host is in no place where it could be used. */
  lemma CloseLosesHost(s: Pool, t: Pool, h: Host)
    requires Settled(s) && (h in s.connecting || h in s.connected) && Closes(s, t, h)
    ensures h in t.lost <==> s.updated
    ensures Placed(t, h) <==> !s.updated
  {
    CloseSettles(s, t, h);
    var r := Dropped(s, h);
    assert h in s.hosts && h !in s.lost;
    if !s.closed && Active(r) < s.size {
      DropKeeps(s, h, {});
      ConnectKeepsLost(r, t);
    }
    assert h in t.hosts ==> Placed(t, h) || h in t.lost;
  }

  lemma ConnectKeepsLost(s: Pool, t: Pool)
    requires Connects(s, t)
    ensures t.lost == s.lost && t.hosts == s.hosts
  {}

  lemma {:induction false} ConnectTimesKeepsLost(s: Pool, t: Pool, n: nat)
    requires ConnectsTimes(s, t, n)
    ensures t.lost == s.lost && t.hosts == s.hosts
    decreases n
  {
    if n > 0 {
      var u :| Connects(s, u) && ConnectsTimes(u, t, n - 1);
      ConnectKeepsLost(s, u);
      ConnectTimesKeepsLost(u, t, n - 1);
    }
  }

  lemma CloseKeepsLost(s: Pool, t: Pool, h: Host)
    requires Closes(s, t, h)
    ensures s.lost <= t.lost && t.hosts == s.hosts
  {
    if !s.closed && Active(Dropped(s, h)) < s.size {
      ConnectKeepsLost(Dropped(s, h), t);
    }
  }

  lemma {:induction false} CloseEachKeepsLost(s: Pool, t: Pool, dead: seq<Host>)
    requires ClosesEach(s, t, dead)
    ensures s.lost <= t.lost && t.hosts == s.hosts
    decreases |dead|
  {
    if dead != [] {
      var u :| ClosesIfOpen(s, u, dead[0]) && ClosesEach(u, t, dead[1..]);
      if dead[0] in s.connecting || dead[0] in s.connected {
        CloseKeepsLost(s, u, dead[0]);
      }
      CloseEachKeepsLost(u, t, dead[1..]);
    }
  }

  lemma NextKeepsLost(s: Pool, t: Pool, h: Host)
    requires Next(s, t) && h in s.lost && h in t.hosts
    ensures h in t.lost
  {
    if x :| (x in s.connecting || x in s.connected) && Closes(s, t, x) {
      CloseKeepsLost(s, t, x);
    } else if x :| x in s.connecting && t == Readied(s, x) {
    } else if hosts, dead :| Updates(s, t, hosts, dead) {
      var u :| ClosesEach(Relisted(s, hosts), u, dead) && ConnectsTimes(u, t, Missing(u));
      CloseEachKeepsLost(Relisted(s, hosts), u, dead);
      ConnectTimesKeepsLost(u, t, Missing(u));
    }
  }

  predicate Listed(states: seq<Pool>, i: nat, h: Host) {
    i < |states| && h in states[i].hosts
  }

  lemma StepKeepsLost(states: seq<Pool>, i: nat, h: Host)
    requires Trace(states) && 0 < i < |states| && h in states[i - 1].lost && h in states[i].hosts
    ensures h in states[i].lost
  {
    assert StepAt(states, i);
    NextKeepsLost(states[i - 1], states[i], h);
  }

  /** A lost host is lost for as long as it stays on the list: only a change that drops it, and a later one that lists it
      again, bring it back. */
  lemma {:induction false} LostWhileListed(states: seq<Pool>, i: nat, j: nat, h: Host)
    requires Trace(states) && i <= j < |states| && h in states[i].lost
    requires forall k: nat | i <= k <= j :: Listed(states, k, h)
    ensures h in states[j].lost && !Placed(states[j], h)
    decreases j
  {
    if i < j {
      LostWhileListed(states, i, j - 1, h);
      assert Listed(states, j, h);
      StepKeepsLost(states, j, h);
    }
    NowhereElse(states, j, h);
  }

  lemma NowhereElse(states: seq<Pool>, i: nat, h: Host)
    requires Trace(states) && i < |states| && h in states[i].lost
    ensures !Placed(states[i], h)
  {
    AlwaysSettled(states, i);
  }

  const ALONE := Host("a", 1)

  /** A run that ends with an open pool, a listed host, and no connection: the list is changed to itself, then the only
      connection closes. */
  lemma HostsGetLost() returns (states: seq<Pool>)
    ensures Trace(states) && |states| == 3
    ensures var end := states[2];
            !end.closed && end.hosts == {ALONE} == end.lost && Active(end) == 0 && end.free == {}
  {
    var s0 := Taken(Empty(1, {ALONE}), ALONE);
    ConnectsAlone(s0);
    var s1 := s0.(updated := true);
    assert Relisted(s0, {ALONE}) == s1 by {
      assert s0.free == {} && s0.lost == {} && {ALONE} - {ALONE} == {};
    }
    assert Active(s1) == 1 && Missing(s1) == 0;
    assert ClosesEach(Relisted(s0, {ALONE}), s1, []) && ConnectsTimes(s1, s1, Missing(s1));
    assert Updates(s0, s1, {ALONE}, []);
    var s2 := Dropped(s1, ALONE);
    assert s2.free == {} && s2.connecting == {} && s2.connected == {};
    assert Connects(s2, s2) && Closes(s1, s2, ALONE);
    states := [s0, s1, s2];
    assert StepAt(states, 1) && StepAt(states, 2);
  }

  lemma ConnectsAlone(s: Pool)
    requires s == Taken(Empty(1, {ALONE}), ALONE)
    ensures Initial(s)
  {
    var e := Empty(1, {ALONE});
    assert Active(e) == 0 && ALONE in e.free;
    assert Connects(e, s) && ConnectsTimes(s, s, 0);
    assert ConnectsTimes(e, s, 1);
  }
}
