/**
 The Database's two listener maps: handles for the caller, and listener objects
 whose addresses the SDK holds as well. Every call runs under one lock.
 */
module ListenerRegistry {
  import opened Bytes
  import DatabaseQuery

  /** A listener object at an address, with the port and query it was made for. */
  datatype Listener = Listener(address: nat, port: int, query: seq<DatabaseQuery.Clause>)

  /** The maps and counters, the addresses the SDK may call, and the addresses of
      the objects that exist. An address may be used again once it is free. */
  datatype Reg = Reg(
    values: map<int, Listener>, children: map<int, Listener>, nextValue: int, nextChild: int,
    sdk: set<nat>, live: set<nat>)

  const EMPTY := Reg(map[], map[], 1, 1000, {}, {})

  function Addresses(m: map<int, Listener>): set<nat> {
    set h | h in m :: m[h].address
  }

  /** Distinct entries own distinct objects, and nothing else is alive or known to
      the SDK; handles lie where no error code can. */
  ghost predicate Valid(r: Reg) {
    && r.nextValue >= 1 && r.nextChild >= 1000
    && (forall h :: h in r.values ==> 1 <= h < r.nextValue)
    && (forall h :: h in r.children ==> -r.nextChild < h <= -1000)
    && (forall h, k :: h in r.values && k in r.values && h != k ==> r.values[h].address != r.values[k].address)
    && (forall h, k :: h in r.children && k in r.children && h != k ==> r.children[h].address != r.children[k].address)
    && Addresses(r.values) !! Addresses(r.children)
    && r.sdk == r.live == Addresses(r.values) + Addresses(r.children)
  }

  function Added(r: Reg, child: bool, l: Listener): Reg {
    if child then
      r.(children := r.children[-r.nextChild := l], nextChild := r.nextChild + 1,
         sdk := r.sdk + {l.address}, live := r.live + {l.address})
    else
      r.(values := r.values[r.nextValue := l], nextValue := r.nextValue + 1,
         sdk := r.sdk + {l.address}, live := r.live + {l.address})
  }

  function Removed(r: Reg, h: int): Reg {
    if h < 0 then
      if h !in r.children then r
      else
        r.(children := r.children - {h},
           sdk := r.sdk - {r.children[h].address}, live := r.live - {r.children[h].address})
    else if h !in r.values then r
    else
      r.(values := r.values - {h},
         sdk := r.sdk - {r.values[h].address}, live := r.live - {r.values[h].address})
  }

  /** The specs a listening call is refused for, and the query otherwise; no bytes
      are the plain reference. */
  function QueryFor(spec: Octets): Option<seq<DatabaseQuery.Clause>> {
    if spec == [] then Some([]) else DatabaseQuery.FromBytes(spec)
  }

  /** What fdb_db_query_listen and fdb_db_child_listen return. */
  function ListenCode(r: Reg, child: bool, database: bool, path: bool, spec: Octets): int {
    if !database then -1
    else if !path then -2
    else if QueryFor(spec).None? then -3
    else if child then -r.nextChild
    else r.nextValue
  }

  function AfterListen(r: Reg, child: bool, database: bool, path: bool, spec: Octets, address: nat, port: int): Reg {
    if database && path && QueryFor(spec).Some? then Added(r, child, Listener(address, port, QueryFor(spec).value)) else r
  }

  lemma {:induction false} AddedValid(r: Reg, child: bool, l: Listener)
    requires Valid(r) && l.address !in r.live
    ensures Valid(Added(r, child, l))
    ensures if child then -r.nextChild !in r.children && r.nextChild >= 1000 else r.nextValue !in r.values && r.nextValue > 0
  {
    var t := Added(r, child, l);
    if child {
      forall h | h in r.children ensures r.children[h].address in Addresses(r.children) {}
      assert t.children[-r.nextChild] == l;
      assert Addresses(t.children) == Addresses(r.children) + {l.address} by { AddressesAdd(r.children, -r.nextChild, l); }
    } else {
      forall h | h in r.values ensures r.values[h].address in Addresses(r.values) {}
      assert t.values[r.nextValue] == l;
      assert Addresses(t.values) == Addresses(r.values) + {l.address} by { AddressesAdd(r.values, r.nextValue, l); }
    }
  }

  lemma {:induction false} AddressesAdd(m: map<int, Listener>, h: int, l: Listener)
    requires h !in m
    ensures Addresses(m[h := l]) == Addresses(m) + {l.address}
  {
    var n := m[h := l];
    forall a | a in Addresses(m) + {l.address} ensures a in Addresses(n) {
      if a in Addresses(m) {
        var k :| k in m && m[k].address == a;
        assert k in n && n[k].address == a;
      } else {
        assert h in n && n[h].address == a;
      }
    }
  }

  lemma {:induction false} AddressesRemove(m: map<int, Listener>, h: int)
    requires h in m
    requires forall i, k :: i in m && k in m && i != k ==> m[i].address != m[k].address
    ensures Addresses(m - {h}) == Addresses(m) - {m[h].address}
  {
    var n := m - {h};
    forall a | a in Addresses(m) && a != m[h].address ensures a in Addresses(n) {
      var k :| k in m && m[k].address == a;
      assert k in n && n[k].address == a;
    }
    forall a | a in Addresses(n) ensures a in Addresses(m) && a != m[h].address {
      var k :| k in n && n[k].address == a;
      assert k in m && m[k].address == a;
    }
  }

  lemma {:induction false} RemovedValid(r: Reg, h: int)
    requires Valid(r)
    ensures Valid(Removed(r, h))
  {
    if h < 0 && h in r.children {
      AddressesRemove(r.children, h);
      assert r.children[h].address in Addresses(r.children);
    } else if h >= 0 && h in r.values {
      AddressesRemove(r.values, h);
      assert r.values[h].address in Addresses(r.values);
    }
  }

  // ---- the source's calls ---------------------------------------------------------------

  class Registry {
    var values: map<int, Listener>
    var children: map<int, Listener>
    var nextValue: int
    var nextChild: int
    /** The SDK's side and the heap's: no counterpart in the bridge's own state. */
    ghost var sdk: set<nat>
    ghost var live: set<nat>

    ghost function Abs(): Reg
      reads this
    {
      Reg(values, children, nextValue, nextChild, sdk, live)
    }

    constructor ()
      ensures Abs() == EMPTY
    {
      values, children, nextValue, nextChild := map[], map[], 1, 1000;
      sdk, live := {}, {};
    }

    /** std::make_unique: an address that is free. */
    ghost method Allocate(address: nat)
      requires address !in live
      modifies this`live
      ensures live == old(live) + {address}
    {
      live := live + {address};
    }

    /** The SDK may call the object from here on, so it has to exist. */
    ghost method AddListener(address: nat)
      requires address in live
      modifies this`sdk
      ensures sdk == old(sdk) + {address}
    {
      sdk := sdk + {address};
    }

    ghost method RemoveListener(address: nat)
      modifies this`sdk
      ensures sdk == old(sdk) - {address}
    {
      sdk := sdk - {address};
    }

    /** Destroying an object the SDK may still call would be a use after free. */
    ghost method Destroy(address: nat)
      requires address in live && address !in sdk
      modifies this`live
      ensures live == old(live) - {address}
    {
      live := live - {address};
    }

    /** fdb_db_query_listen and fdb_db_child_listen; fdb_db_listen is the former
        with a path and no spec. */
    method Listen(child: bool, database: bool, path: bool, spec: Octets, address: nat, port: int) returns (handle: int)
      requires Valid(Abs()) && address !in live
      modifies this
      ensures Valid(Abs())
      ensures handle == ListenCode(old(Abs()), child, database, path, spec)
      ensures Abs() == AfterListen(old(Abs()), child, database, path, spec, address, port)
    {
      hide Valid, DatabaseQuery.FromBytes;
      if !database { return -1; }
      if !path { return -2; }
      var query := [];
      if spec != [] {
        var applied := DatabaseQuery.ReadSpec(spec);
        if applied.None? { return -3; }
        query := applied.value;
      }
      var listener := Listener(address, port, query);
      AddedValid(Abs(), child, listener);
      if child {
        handle := -nextChild;
        nextChild := nextChild + 1;
        Allocate(address);
        AddListener(address);
        children := children[handle := listener];
      } else {
        handle := nextValue;
        nextValue := nextValue + 1;
        Allocate(address);
        AddListener(address);
        values := values[handle := listener];
      }
    }

    /** fdb_db_unlisten: removed from the SDK before it is destroyed. */
    method Unlisten(handle: int)
      requires Valid(Abs())
      modifies this
      ensures Valid(Abs()) && Abs() == Removed(old(Abs()), handle)
    {
      RemovedValid(Abs(), handle);
      if handle < 0 {
        if handle !in children { return; }
        assert children[handle].address in Addresses(children);
        RemoveListener(children[handle].address);
        Destroy(children[handle].address);
        children := children - {handle};
        return;
      }
      if handle !in values { return; }
      assert values[handle].address in Addresses(values);
      RemoveListener(values[handle].address);
      Destroy(values[handle].address);
      values := values - {handle};
    }
  }

  // ---- every run ------------------------------------------------------------------------

  datatype Call =
    | ListenCall(child: bool, database: bool, path: bool, spec: Octets, address: nat, port: int)
    | UnlistenCall(handle: int)

  /** A registry and the handles it gave out, in order. */
  datatype History = History(reg: Reg, handles: seq<int>)

  function Made(h: History, c: Call): Option<History> {
    match c
    case UnlistenCall(handle) => Some(History(Removed(h.reg, handle), h.handles))
    case ListenCall(child, database, path, spec, address, port) =>
      if address in h.reg.live then None
      else
        var code := ListenCode(h.reg, child, database, path, spec);
        var reg := AfterListen(h.reg, child, database, path, spec, address, port);
        Some(History(reg, if -3 <= code < 0 then h.handles else h.handles + [code]))
  }

  function After(run: seq<Call>): Option<History> {
    if run == [] then Some(History(EMPTY, []))
    else match After(run[..|run| - 1]) case None => None case Some(h) => Made(h, run[|run| - 1])
  }

  ghost predicate Inv(h: History) {
    && Valid(h.reg)
    && (forall i :: 0 <= i < |h.handles| ==> 1 <= h.handles[i] < h.reg.nextValue || -h.reg.nextChild < h.handles[i] <= -1000)
    && (forall i, j :: 0 <= i < j < |h.handles| ==> h.handles[i] != h.handles[j])
  }

  lemma {:induction false} ListenFacts(r: Reg, child: bool, database: bool, path: bool, spec: Octets, address: nat, port: int)
    requires Valid(r) && address !in r.live
    ensures var t := AfterListen(r, child, database, path, spec, address, port);
            var code := ListenCode(r, child, database, path, spec);
            && Valid(t) && t.nextValue >= r.nextValue >= 1 && t.nextChild >= r.nextChild >= 1000
            && ((-3 <= code < 0 && t == r)
                || (code == r.nextValue && t.nextValue == code + 1)
                || (code == -r.nextChild && t.nextChild == r.nextChild + 1))
  {
    hide QueryFor;
    if database && path && QueryFor(spec).Some? {
      AddedValid(r, child, Listener(address, port, QueryFor(spec).value));
    }
    assert r.nextValue >= 1 && r.nextChild >= 1000;
    hide Valid;
  }

  lemma {:induction false} MadeInv(h: History, c: Call)
    requires Inv(h) && Made(h, c).Some?
    ensures Inv(Made(h, c).value)
  {
    hide Valid, AfterListen, ListenCode;
    match c {
      case UnlistenCall(handle) => RemovedValid(h.reg, handle);
      case ListenCall(child, database, path, spec, address, port) =>
        ListenFacts(h.reg, child, database, path, spec, address, port);
    }
  }

  /** Over every run of calls: the handles given out are pairwise distinct, none
      is ever given out again, and none looks like an error code; and the objects
      the SDK may call are exactly those that exist, each owned by one entry. */
  lemma {:induction false} EveryRun(run: seq<Call>)
    ensures After(run).Some? ==> Inv(After(run).value)
    ensures After(run).Some? ==> After(run).value.reg.sdk == After(run).value.reg.live
  {
    if run == [] {
      assert Addresses(map[]) == {};
      assert Inv(History(EMPTY, []));
    } else {
      hide Made;
      EveryRun(run[..|run| - 1]);
      if After(run).Some? { MadeInv(After(run[..|run| - 1]).value, run[|run| - 1]); }
    }
  }

  /** A refused spec registers nothing and uses up no handle. */
  lemma {:induction false} RefusedSpec(r: Reg, child: bool, database: bool, path: bool, spec: Octets, address: nat, port: int)
    requires Valid(r)
    ensures AfterListen(r, child, database, path, spec, address, port) == r <==>
            -3 <= ListenCode(r, child, database, path, spec) < 0
  {
    hide QueryFor;
  }

  /** The codes of the refusals: no database, no path, or a spec that is none. */
  lemma {:induction false} RefusalCodes(r: Reg, child: bool, database: bool, path: bool, spec: Octets)
    requires Valid(r)
    ensures var h := ListenCode(r, child, database, path, spec);
            && (h == -1 <==> !database)
            && (h == -2 <==> database && !path)
            && (h == -3 <==> database && path && spec != [] && DatabaseQuery.FromBytes(spec).None?)
  {
    hide DatabaseQuery.FromBytes;
  }

  /** The entry a listening call makes: at the handle it returns stand its own
      port and the query of its own spec, and nothing else changes. */
  lemma {:induction false} ListenEntry(r: Reg, child: bool, spec: Octets, address: nat, port: int,
                                       query: seq<DatabaseQuery.Clause>)
    requires Valid(r)
    requires if spec == [] then query == [] else DatabaseQuery.FromBytes(spec) == Some(query)
    ensures var h, t := ListenCode(r, child, true, true, spec), AfterListen(r, child, true, true, spec, address, port);
            && (child ==> h <= -1000 && h !in r.children && t.values == r.values
                          && t.children == r.children[h := Listener(address, port, query)])
            && (!child ==> h >= 1 && h !in r.values && t.children == r.children
                           && t.values == r.values[h := Listener(address, port, query)])
            && t.sdk == r.sdk + {address} && t.live == r.live + {address}
  {
    hide DatabaseQuery.FromBytes;
  }

  /** And the entry an unlistening call takes away: that of its handle, in the map
      its sign names, with the listener's own address. */
  lemma {:induction false} UnlistenEntry(r: Reg, h: int)
    requires Valid(r)
    ensures var t := Removed(r, h);
            && (h in r.values ==> t.values == r.values - {h} && t.children == r.children
                                  && t.sdk == r.sdk - {r.values[h].address} && t.live == r.live - {r.values[h].address})
            && (h in r.children ==> t.children == r.children - {h} && t.values == r.values
                                    && t.sdk == r.sdk - {r.children[h].address} && t.live == r.live - {r.children[h].address})
            && (h !in r.values && h !in r.children ==> t == r)
  {
  }
}
