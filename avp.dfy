/**
 * The client table of AVP (pkg/avp.go): one SFU client per remote address,
 * created on the first Process for that address and removed by the close
 * callback that Process registers on it.
 */
module Clients {
  import opened Wrappers
  import Ints

  /**
   * Get-or-create on the table, as Process does; `created` stands for the
   * client NewSFU would return, used only when `addr` has no entry. The
   * second component is the client Process goes on to use.
   */
  function Register<C>(clients: map<string, C>, addr: string, created: C): (r: (map<string, C>, C))
    ensures addr in r.0 && r.0[addr] == r.1
    ensures addr in clients ==> r.0 == clients && r.1 == clients[addr]
    ensures addr !in clients ==> r.1 == created && r.0.Keys == clients.Keys + {addr}
    ensures forall a :: a in clients ==> a in r.0 && r.0[a] == clients[a]
  {
    if addr in clients then (clients, clients[addr])
    else (clients[addr := created], created)
  }

  /** The close callback: delete the entry under `addr`, whichever client it holds. */
  function Unregister<C>(clients: map<string, C>, addr: string): (r: map<string, C>)
    ensures addr !in r
    ensures r.Keys == clients.Keys - {addr}
    ensures forall a :: a in r ==> r[a] == clients[a]
  {
    clients - {addr}
  }

  /** A client created by Process and then closed leaves the table as it was before. */
  lemma RegisterThenClose<C>(clients: map<string, C>, addr: string, created: C)
    requires addr !in clients
    ensures Unregister(Register(clients, addr, created).0, addr) == clients
  {
  }

  /** Processing the same address again reuses its client and changes nothing. */
  lemma RegisterIsIdempotent<C>(clients: map<string, C>, addr: string, created: C, again: C)
    ensures var (m, c) := Register(clients, addr, created);
            Register(m, addr, again) == (m, c)
  {
  }

  /**
   * Processing addresses in any order: registering `a` then `b` (distinct)
   * builds the same table, with the same clients, as `b` then `a`.
   */
  lemma RegisterCommutes<C>(clients: map<string, C>, a: string, ca: C, b: string, cb: C)
    requires a != b
    ensures var (m1, x1) := Register(clients, a, ca);
            var (m2, y2) := Register(m1, b, cb);
            var (n1, y1) := Register(clients, b, cb);
            var (n2, x2) := Register(n1, a, ca);
            m2 == n2 && x1 == x2 && y1 == y2
  {
  }

  /** An SFU client; `onCloseKey` is the address its close callback deletes. */
  class Sfu {
    const addr: string
    var onCloseKey: Option<string>

    /** NewSFU: a new client for `addr`, with no close callback yet. */
    constructor (addr: string)
      ensures this.addr == addr && onCloseKey == None
    {
      this.addr := addr;
      onCloseKey := None;
    }

    /** OnClose: the callback captures the key it will delete. */
    method OnClose(key: string)
      modifies this
      ensures onCloseKey == Some(key)
    {
      onCloseKey := Some(key);
    }
  }

  class Avp {
    var clients: map<string, Sfu>

    /** Every client in the table was created for its key and deletes that key when it closes. */
    ghost predicate Valid()
      reads this, clients.Values
    {
      forall a :: a in clients ==> clients[a].addr == a && clients[a].onCloseKey == Some(a)
    }

    /** NewAVP: an empty client table. */
    constructor ()
      ensures Valid() && clients == map[]
    {
      clients := map[];
    }

    /**
     * Process: reuse the client under `addr` or create one (registering its
     * close callback) and insert it; no other entry changes. The returned
     * client is the one whose transport for `sid` receives the request.
     */
    method Process(addr: string, pid: string, sid: string, tid: string, eid: string, config: seq<Ints.byte>)
      returns (c: Sfu)
      requires Valid()
      modifies this
      ensures Valid()
      ensures (clients, c) == Register(old(clients), addr, c)
      ensures addr in old(clients) ==> clients == old(clients)
      ensures addr !in old(clients) ==> fresh(c)
    {
      if addr in clients {
        c := clients[addr];
      } else {
        c := new Sfu(addr);
        c.OnClose(addr);
        clients := clients[addr := c];
      }
    }

    /**
     * The close callback of client `c`: delete the key it captured. It goes
     * by key, not by identity, so it removes whatever client is stored there.
     */
    method ClientClosed(c: Sfu)
      requires Valid() && c.onCloseKey.Some?
      modifies this
      ensures Valid()
      ensures clients == Unregister(old(clients), c.onCloseKey.value)
    {
      clients := clients - {c.onCloseKey.value};
    }
  }
}
