/** The TCP connection pool as it runs: three dictionaries changed in place, a random choice of free host, and
    connections that close in the middle of a change of the host list. */
module TcpPool {
  import opened Pools

  class TcpConnection {
    const host: Host

    constructor (host: Host)
      ensures this.host == host
    {
      this.host := host;
    }
  }

  function Elements(hosts: seq<Host>): set<Host> {
    set h | h in hosts
  }

  /** `_.differenceWith(hosts, others, _.isEqual)`. */
  method Difference(hosts: seq<Host>, others: seq<Host>) returns (rest: seq<Host>)
    ensures forall h :: h in rest <==> h in hosts && h !in others
  {
    rest := [];
    for i := 0 to |hosts|
      invariant forall h :: h in rest <==> h in hosts[..i] && h !in others
    {
      assert hosts[..i + 1] == hosts[..i] + [hosts[i]];
      if hosts[i] !in others {
        rest := rest + [hosts[i]];
      }
    }
    assert hosts[..|hosts|] == hosts;
  }

  lemma {:induction false} OneMoreConnect(s: Pool, u: Pool, t: Pool, n: nat)
    requires ConnectsTimes(s, u, n) && Connects(u, t)
    ensures ConnectsTimes(s, t, n + 1)
    decreases n
  {
    if n == 0 {
      assert Connects(s, t) && ConnectsTimes(t, t, 0);
    } else {
      var v :| Connects(s, v) && ConnectsTimes(v, u, n - 1);
      OneMoreConnect(v, u, t, n - 1);
    }
  }

  lemma {:induction false} OneMoreClose(s: Pool, u: Pool, t: Pool, dead: seq<Host>, h: Host)
    requires ClosesEach(s, u, dead) && ClosesIfOpen(u, t, h)
    ensures ClosesEach(s, t, dead + [h])
    decreases |dead|
  {
    if dead == [] {
      assert (dead + [h])[1..] == [];
      assert ClosesIfOpen(s, t, h) && ClosesEach(t, t, []);
    } else {
      var v :| ClosesIfOpen(s, v, dead[0]) && ClosesEach(v, u, dead[1..]);
      OneMoreClose(v, u, t, dead[1..], h);
      assert (dead + [h])[1..] == dead[1..] + [h];
    }
  }

  lemma ClosesThus(s: Pool, t: Pool, h: Host, dropped: Pool)
    requires dropped == Dropped(s, h)
    requires if s.closed || Active(dropped) >= s.size then t == dropped else Connects(dropped, t)
    ensures Closes(s, t, h)
  {}

  class TcpLoadBalancer {
    const size: nat
    var hosts: seq<Host>
    var updated: bool        // the host list is no longer the one whose entries were put on the free list
    var closed: bool
    var ready: bool          // 'ready' has been announced
    var full: bool           // 'connected' has been announced
    var free: set<Host>
    var connecting: map<Host, TcpConnection>
    var connected: map<Host, TcpConnection>
    var over: bool           // 'close' has been announced
    ghost var lost: set<Host>

    ghost function View(): Pool
      reads this`hosts, this`updated, this`closed, this`free, this`connecting, this`connected, this`lost
    {
      Pool(size, Elements(hosts), updated, closed, free, connecting.Keys, connected.Keys, lost)
    }

    method GetActiveConnCount() returns (n: nat)
      ensures n == Active(View())
    {
      n := |connected.Keys| + |connecting.Keys|;
    }

    constructor (hosts: seq<Host>, size: nat)
      requires size > 0
      ensures Initial(View()) && this.size == size && this.hosts == hosts && !ready && !full
    {
      this.size, this.hosts, updated, closed := size, hosts, false, false;
      ready, full, over := false, false, false;
      free, connecting, connected, lost := Elements(hosts), map[], map[], {};
      new;
      Seed();
    }

    /** Connects as often as the pool is large. */
    method Seed()
      requires size > 0 && View() == Empty(size, Elements(hosts))
      modifies this`free, this`connecting
      ensures Initial(View())
    {
      ConnectTimes(size);
    }

    /** The loop that seeds the pool, and the one that ends a change of the host list. */
    method ConnectTimes(n: nat)
      modifies this`free, this`connecting
      ensures ConnectsTimes(old(View()), View(), n)
    {
      for i := 0 to n
        invariant ConnectsTimes(old(View()), View(), i)
      {
        ghost var before := View();
        Connect();
        OneMoreConnect(old(View()), before, View(), i);
      }
    }

    method Connect()
      modifies this`free, this`connecting
      ensures Connects(old(View()), View())
    {
      var n := GetActiveConnCount();
      if n >= size { return; }
      if free == {} { return; }
      SomeFree();
      var h :| h in free;
      Take(h);
      assert h in old(View()).free;
    }

    method Take(h: Host)
      modifies this`free, this`connecting
      ensures View() == Taken(old(View()), h)
    {
      free := free - {h};
      var connection := new TcpConnection(h);
      connecting := connecting[h := connection];
      assert connecting.Keys == old(connecting.Keys) + {h};
    }

    lemma SomeFree()
      ensures free == {} || exists h :: h in free
    {
      if forall h :: h !in free { assert free == {}; }
    }

    /** A connection is gone, and its host is put back if it is found on the list. */
    method Drop(h: Host)
      modifies this`free, this`connecting, this`connected, this`lost
      ensures View() == Dropped(old(View()), h)
    {
      connecting := connecting - {h};
      connected := connected - {h};
      if h in hosts {
        if !updated {
          free := free + {h};
        } else {
          lost := lost + {h};
        }
      }
    }

    /** An open pool looks for a replacement; a closed one announces its end with the last connection. */
    method Replace()
      modifies this`free, this`connecting, this`over
      ensures if closed || Active(old(View())) >= size then View() == old(View()) else Connects(old(View()), View())
      ensures over <==> old(over) || (closed && |connecting.Keys| == 0 && |connected.Keys| == 0)
    {
      if closed {
        if |connecting.Keys| == 0 && |connected.Keys| == 0 {
          over := true;
        }
        return;
      }
      var n := GetActiveConnCount();
      if n < size {
        Connect();
      }
    }

    /** A connection has closed. */
    method OnClose(h: Host)
      modifies this`free, this`connecting, this`connected, this`over, this`lost
      ensures Closes(old(View()), View(), h)
      ensures over <==> old(over) || (closed && |connecting.Keys| == 0 && |connected.Keys| == 0)
    {
      Drop(h);
      ghost var dropped := View();
      Replace();
      ClosesThus(old(View()), View(), h, dropped);
    }

    method MoveOver(h: Host)
      requires h in connecting
      modifies this`connecting, this`connected
      ensures View() == Readied(old(View()), h)
      ensures connected == old(connected)[h := old(connecting)[h]]
    {
      connected := connected[h := connecting[h]];
      connecting := connecting - {h};
      assert connected.Keys == old(connected.Keys) + {h};
      assert connecting.Keys == old(connecting.Keys) - {h};
    }

    method OnReady(h: Host)
      requires h in connecting
      modifies this`connecting, this`connected, this`ready, this`full
      ensures View() == Readied(old(View()), h)
      ensures connected == old(connected)[h := old(connecting)[h]]
      ensures ready && (full <==> old(full) || |connected.Keys| == size)
    {
      MoveOver(h);
      ready := true;
      if !full {
        if |connected.Keys| == size {
          full := true;
        }
      }
    }

    method Close()
      modifies this`closed
      ensures View() == old(View()).(closed := true)
    {
      closed := true;
    }

    /** Closing the connection to one dead host, if there is one: its close handler runs before the loop goes on. */
    method CloseIfOpen(h: Host)
      modifies this`free, this`connecting, this`connected, this`over, this`lost
      ensures ClosesIfOpen(old(View()), View(), h)
    {
      if h in connecting {
        OnClose(h);
      } else if h in connected {
        OnClose(h);
      }
    }

    method CloseEach(dead: seq<Host>)
      modifies this`free, this`connecting, this`connected, this`over, this`lost
      ensures ClosesEach(old(View()), View(), dead)
    {
      for i := 0 to |dead|
        invariant ClosesEach(old(View()), View(), dead[..i])
      {
        ghost var before := View();
        CloseIfOpen(dead[i]);
        OneMoreClose(old(View()), before, View(), dead[..i], dead[i]);
        assert dead[..i + 1] == dead[..i] + [dead[i]];
      }
      assert dead[..|dead|] == dead;
    }

    method FillUp()
      modifies this`free, this`connecting
      ensures ConnectsTimes(old(View()), View(), Missing(old(View())))
    {
      ghost var s := View();
      var n := GetActiveConnCount();
      if size <= n {
        assert Missing(s) == 0;
        return;
      }
      var additional := size - n;
      if |free| < additional {
        additional := |free|;
      }
      assert additional == Missing(s);
      ConnectTimes(additional);
    }

    /** The new list, and what it does to the free hosts. */
    method Relist(list: seq<Host>) returns (deadHosts: seq<Host>)
      modifies this`hosts, this`updated, this`free, this`lost
      ensures hosts == list && View() == Relisted(old(View()), Elements(list))
      ensures forall h :: h in deadHosts <==> h in old(View()).hosts - Elements(list)
    {
      ghost var goal := Relisted(View(), Elements(list));
      lost := lost * Elements(list);
      var prevHosts := hosts;
      hosts := list;
      updated := true;
      var newHosts := Difference(list, prevHosts);
      free := free + Elements(newHosts);
      deadHosts := Difference(prevHosts, list);
      free := free - Elements(deadHosts);
      assert free == goal.free;
    }

    method UpdateHosts(list: seq<Host>)
      modifies this`hosts, this`updated, this`free, this`connecting, this`connected, this`over, this`lost
      ensures hosts == list
      ensures exists dead :: Updates(old(View()), View(), Elements(list), dead)
    {
      var deadHosts := Relist(list);
      CloseEach(deadHosts);
      ghost var u := View();
      FillUp();
      assert ClosesEach(Relisted(old(View()), Elements(list)), u, deadHosts) && ConnectsTimes(u, View(), Missing(u));
      assert Updates(old(View()), View(), Elements(list), deadHosts);
    }
  }

  /** The pool under any sequence of calls: settled before, settled after. */
  method KeepsSettled(pool: TcpLoadBalancer, h: Host, list: seq<Host>, choice: nat)
    requires Settled(pool.View())
    modifies pool
    ensures Settled(pool.View())
  {
    if choice == 0 && (h in pool.connecting || h in pool.connected) {
      ghost var s := pool.View();
      pool.OnClose(h);
      CloseSettles(s, pool.View(), h);
    } else if choice == 1 && h in pool.connecting {
      ReadyKeeps(pool.View(), h);
      pool.OnReady(h);
    } else if choice == 2 {
      ghost var s := pool.View();
      pool.UpdateHosts(list);
      ghost var dead :| Updates(s, pool.View(), Elements(list), dead);
      UpdateSettles(s, pool.View(), Elements(list), dead);
    } else if choice == 3 {
      ShutSettles(pool.View());
      pool.Close();
    }
  }
}
