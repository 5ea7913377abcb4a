/** Reloading the configuration: entities are kept in a set ordered by listening port alone, two
    set differences say which listeners to start and which to stop, and the map of acceptors is
    updated from them. */
module Reload {
  import opened Basics

  datatype Entity = Entity(port: nat, ip: string, servers: seq<string>)

  // ---------------------------------------------------------------- the ordered set

  /** std::set with operator< on the port: ports strictly increasing. */
  ghost predicate Sorted(s: seq<Entity>) {
    forall i, j :: 0 <= i < j < |s| ==> s[i].port < s[j].port
  }

  function Ports(s: seq<Entity>): set<nat> {
    set i | 0 <= i < |s| :: s[i].port
  }

  /** The first entity of a list that listens on a port. */
  function First(list: seq<Entity>, port: nat): Option<Entity> {
    if list == [] then None
    else if list[0].port == port then Some(list[0])
    else First(list[1..], port)
  }

  lemma {:induction false} FirstFinds(list: seq<Entity>, port: nat)
    ensures First(list, port).Some? <==> port in Ports(list)
    ensures First(list, port).Some? ==> First(list, port).value.port == port && First(list, port).value in list
  {
    if list != [] {
      FirstFinds(list[1..], port);
      PortsCons(list[0], list[1..]);
      assert list == [list[0]] + list[1..];
    }
  }

  lemma PortsCons(e: Entity, s: seq<Entity>)
    ensures Ports([e] + s) == {e.port} + Ports(s)
  {
    assert forall i :: 0 <= i < |s| ==> ([e] + s)[i + 1] == s[i];
    forall p | p in {e.port} + Ports(s)
      ensures p in Ports([e] + s)
    {
      if p == e.port {
        assert ([e] + s)[0].port == p;
      } else {
        var i :| 0 <= i < |s| && s[i].port == p;
        assert ([e] + s)[i + 1].port == p;
      }
    }
  }

  lemma PortsAppend(a: seq<Entity>, b: seq<Entity>)
    ensures Ports(a + b) == Ports(a) + Ports(b)
  {
    forall p | p in Ports(a) + Ports(b)
      ensures p in Ports(a + b)
    {
      if p in Ports(a) {
        var i :| 0 <= i < |a| && a[i].port == p;
        assert (a + b)[i].port == p;
      } else {
        var i :| 0 <= i < |b| && b[i].port == p;
        assert (a + b)[|a| + i].port == p;
      }
    }
  }

  /** std::set::emplace: an entity on a port already present is dropped. */
  function Emplace(s: seq<Entity>, e: Entity): seq<Entity> {
    if s == [] || e.port < s[0].port then [e] + s
    else if e.port == s[0].port then s
    else [s[0]] + Emplace(s[1..], e)
  }

  lemma SortedCons(e: Entity, s: seq<Entity>)
    requires Sorted(s) && forall p :: p in Ports(s) ==> e.port < p
    ensures Sorted([e] + s)
  {
    forall i | 0 <= i < |s|
      ensures e.port < s[i].port
    {
      assert s[i].port in Ports(s);
    }
  }

  lemma HeadBelow(s: seq<Entity>)
    requires Sorted(s) && s != []
    ensures Ports(s) == {s[0].port} + Ports(s[1..])
    ensures forall p :: p in Ports(s[1..]) ==> s[0].port < p
  {
    assert s == [s[0]] + s[1..];
    PortsCons(s[0], s[1..]);
  }

  lemma {:induction false} EmplacePorts(s: seq<Entity>, e: Entity)
    ensures Ports(Emplace(s, e)) == Ports(s) + {e.port}
  {
    if s == [] || e.port < s[0].port {
      PortsCons(e, s);
    } else {
      assert s == [s[0]] + s[1..];
      PortsCons(s[0], s[1..]);
      if e.port > s[0].port {
        EmplacePorts(s[1..], e);
        PortsCons(s[0], Emplace(s[1..], e));
      }
    }
  }

  lemma {:induction false} EmplaceInserts(s: seq<Entity>, e: Entity)
    requires Sorted(s)
    ensures Sorted(Emplace(s, e))
    ensures Ports(Emplace(s, e)) == Ports(s) + {e.port}
  {
    EmplacePorts(s, e);
    if s == [] {
    } else if e.port < s[0].port {
      HeadBelow(s);
      SortedCons(e, s);
    } else if e.port > s[0].port {
      HeadBelow(s);
      EmplaceInserts(s[1..], e);
      SortedCons(s[0], Emplace(s[1..], e));
    }
  }

  lemma {:induction false} EmplaceKeepsFirst(s: seq<Entity>, e: Entity, p: nat)
    requires Sorted(s)
    ensures First(Emplace(s, e), p) == if p == e.port && p !in Ports(s) then Some(e) else First(s, p)
  {
    if s == [] {
      assert ([e] + s)[1..] == s;
    } else {
      HeadBelow(s);
      if e.port < s[0].port {
        assert ([e] + s)[1..] == s;
        FirstFinds(s, p);
      } else if e.port > s[0].port {
        EmplaceKeepsFirst(s[1..], e, p);
        assert ([s[0]] + Emplace(s[1..], e))[1..] == Emplace(s[1..], e);
      }
    }
  }

  function Build(list: seq<Entity>): seq<Entity> {
    if list == [] then [] else Emplace(Build(list[..|list| - 1]), list[|list| - 1])
  }

  /** The set built from a configuration has its ports, each with the first entity given for it. */
  lemma {:induction false} BuildIsFirstWins(list: seq<Entity>)
    ensures Sorted(Build(list))
    ensures Ports(Build(list)) == Ports(list)
    ensures forall p :: First(Build(list), p) == First(list, p)
  {
    if list != [] {
      var front, e := list[..|list| - 1], list[|list| - 1];
      BuildIsFirstWins(front);
      EmplaceInserts(Build(front), e);
      assert list == front + [e];
      PortsAppend(front, [e]);
      assert Ports([e]) == {e.port};
      forall p
        ensures First(Build(list), p) == First(list, p)
      {
        EmplaceKeepsFirst(Build(front), e, p);
        FirstSnoc(front, e, p);
        FirstFinds(front, p);
      }
    }
  }

  lemma {:induction false} FirstSnoc(list: seq<Entity>, e: Entity, p: nat)
    ensures First(list + [e], p) == if First(list, p).Some? then First(list, p) else if e.port == p then Some(e) else None
  {
    if list == [] {
      assert list + [e] == [e];
      assert First([e][1..], p) == None;
    } else {
      assert (list + [e])[1..] == list[1..] + [e];
      FirstSnoc(list[1..], e, p);
    }
  }

  lemma Assoc(a: seq<Entity>, b: seq<Entity>, c: seq<Entity>)
    ensures (a + b) + c == a + (b + c)
  {
  }

  // ---------------------------------------------------------------- set_difference

  /** The reference: the entities whose port is not among the given ones. */
  function Without(s: seq<Entity>, ports: set<nat>): seq<Entity> {
    if s == [] then []
    else (if s[0].port in ports then [] else [s[0]]) + Without(s[1..], ports)
  }

  lemma {:induction false} WithoutPorts(s: seq<Entity>, ports: set<nat>)
    ensures Ports(Without(s, ports)) == Ports(s) - ports
    ensures forall i :: 0 <= i < |Without(s, ports)| ==> Without(s, ports)[i] in s
  {
    if s != [] {
      var t := Without(s[1..], ports);
      WithoutPorts(s[1..], ports);
      assert s == [s[0]] + s[1..];
      PortsCons(s[0], s[1..]);
      if s[0].port in ports {
        assert Without(s, ports) == t;
      } else {
        PortsCons(s[0], t);
        assert Without(s, ports) == [s[0]] + t;
      }
    }
  }

  lemma WithoutIrrelevant(s: seq<Entity>, ports: set<nat>, more: nat)
    requires more !in Ports(s)
    ensures Without(s, ports + {more}) == Without(s, ports)
  {
    if s != [] {
      assert s == [s[0]] + s[1..];
      PortsCons(s[0], s[1..]);
    }
  }

  lemma {:induction false} WithoutNone(s: seq<Entity>)
    ensures Without(s, {}) == s
  {
    if s != [] { WithoutNone(s[1..]); }
  }

  /** One comparison of the merge, on the heads of what is left of both sets. */
  lemma MergeTurn(a: seq<Entity>, b: seq<Entity>)
    requires Sorted(a) && Sorted(b) && a != [] && b != []
    ensures a[0].port < b[0].port ==> Without(a, Ports(b)) == [a[0]] + Without(a[1..], Ports(b))
    ensures a[0].port > b[0].port ==> Without(a, Ports(b)) == Without(a, Ports(b[1..]))
    ensures a[0].port == b[0].port ==> Without(a, Ports(b)) == Without(a[1..], Ports(b[1..]))
  {
    HeadBelow(a);
    HeadBelow(b);
    if a[0].port > b[0].port {
      WithoutIrrelevant(a, Ports(b[1..]), b[0].port);
      assert Ports(b) == Ports(b[1..]) + {b[0].port};
    } else if a[0].port == b[0].port {
      WithoutIrrelevant(a[1..], Ports(b[1..]), b[0].port);
      assert Ports(b) == Ports(b[1..]) + {b[0].port};
    }
  }

  /** The merge of std::set_difference on two ordered sets computes the difference by port. */
  method SetDifference(a: seq<Entity>, b: seq<Entity>) returns (out: seq<Entity>)
    requires Sorted(a) && Sorted(b)
    ensures out == Without(a, Ports(b))
  {
    out := [];
    var i, j := 0, 0;
    assert a[0..] == a && b[0..] == b;
    while i < |a|
      invariant i <= |a| && j <= |b|
      invariant Without(a, Ports(b)) == out + Without(a[i..], Ports(b[j..]))
      decreases |a| - i + |b| - j
    {
      if j == |b| {
        WithoutNone(a[i..]);
        assert Ports(b[j..]) == {};
        out := out + a[i..];
        return;
      }
      MergeTurn(a[i..], b[j..]);
      assert a[i..][1..] == a[i + 1..] && b[j..][1..] == b[j + 1..];
      if a[i].port < b[j].port {
        Assoc(out, [a[i]], Without(a[i + 1..], Ports(b[j..])));
        out := out + [a[i]];
        i := i + 1;
      } else if b[j].port < a[i].port {
        j := j + 1;
      } else {
        i, j := i + 1, j + 1;
      }
    }
  }

  // ---------------------------------------------------------------- config

  class Config {
    var entities: seq<Entity>
    var del: seq<Entity>
    var add: seq<Entity>

    constructor ()
      ensures entities == [] && del == [] && add == []
    {
      entities, del, add := [], [], [];
    }

    /** The part of parse_conf after the file is read; `list` is tcp_proxy in file order. */
    method ParseConf(list: seq<Entity>)
      requires Sorted(entities)
      modifies this
      ensures entities == Build(list) && Sorted(entities)
      ensures del == Without(old(entities), Ports(entities))
      ensures add == Without(entities, Ports(old(entities)))
    {
      var next: seq<Entity> := [];
      for i := 0 to |list|
        invariant next == Build(list[..i]) && entities == old(entities)
      {
        assert list[..i + 1][..i] == list[..i];
        next := Insert(next, list[i]);
      }
      assert list[..|list|] == list;
      BuildIsFirstWins(list);
      del := SetDifference(entities, next);
      add := SetDifference(next, entities);
      entities := next;
    }

    /** Ordered insertion by walking to the first port not below the new one. */
    static method Insert(s: seq<Entity>, e: Entity) returns (r: seq<Entity>)
      ensures r == Emplace(s, e)
    {
      var i := 0;
      assert s[..0] + Emplace(s[0..], e) == Emplace(s, e);
      while i < |s| && s[i].port < e.port
        invariant 0 <= i <= |s|
        invariant Emplace(s, e) == s[..i] + Emplace(s[i..], e)
      {
        assert s[i..][1..] == s[i + 1..];
        assert s[..i + 1] == s[..i] + [s[i]];
        Assoc(s[..i], [s[i]], Emplace(s[i + 1..], e));
        i := i + 1;
      }
      if i < |s| && s[i].port == e.port {
        assert s[..i] + s[i..] == s;
        return s;
      }
      return s[..i] + [e] + s[i..];
    }
  }

  // ---------------------------------------------------------------- listeners over reloads

  /** The configured entities, the acceptors by port with the address each is bound to, and the
      listeners that were spawned but have not registered yet. */
  datatype World = World(entities: seq<Entity>, acceptors: map<nat, string>, spawned: seq<Entity>)

  datatype Change = Reloaded(list: seq<Entity>) | Registered

  /** At start-up every configured entity's listener is spawned. */
  function StartUp(list: seq<Entity>): World {
    World(Build(list), map[], Build(list))
  }

  predicate Possible(w: World, c: Change) {
    c.Registered? ==> w.spawned != []
  }

  /** emplace into the map does not replace an acceptor. */
  function Register(acceptors: map<nat, string>, e: Entity): map<nat, string> {
    if e.port in acceptors then acceptors else acceptors[e.port := e.ip]
  }

  function Change1(w: World, c: Change): World
    requires Possible(w, c)
  {
    match c
    case Registered => w.(acceptors := Register(w.acceptors, w.spawned[0]), spawned := w.spawned[1..])
    case Reloaded(list) =>
      var next := Build(list);
      World(next, w.acceptors - Ports(Without(w.entities, Ports(next))),
            w.spawned + Without(next, Ports(w.entities)))
  }

  /** Every configured port has its listener, registered or about to, and no other port has one. */
  predicate Tracked(w: World) {
    w.acceptors.Keys + Ports(w.spawned) == Ports(w.entities)
  }

  /** No port is taken away whose listener has not registered yet. */
  predicate NoneDeletedEarly(w: World, c: Change) {
    c.Reloaded? ==> Ports(w.spawned) <= Ports(c.list)
  }

  lemma ReloadedPorts(w: World, list: seq<Entity>)
    requires Possible(w, Reloaded(list))
    ensures var t := Change1(w, Reloaded(list));
            && Ports(t.entities) == Ports(list)
            && t.acceptors.Keys == w.acceptors.Keys - (Ports(w.entities) - Ports(list))
            && Ports(t.spawned) == Ports(w.spawned) + (Ports(list) - Ports(w.entities))
  {
    BuildIsFirstWins(list);
    WithoutPorts(w.entities, Ports(Build(list)));
    WithoutPorts(Build(list), Ports(w.entities));
    PortsAppend(w.spawned, Without(Build(list), Ports(w.entities)));
  }

  /** The exact condition for a change to keep the listeners in step with the configuration. */
  lemma TrackedIffNoneDeletedEarly(w: World, c: Change)
    requires Tracked(w) && Possible(w, c)
    ensures Tracked(Change1(w, c)) <==> NoneDeletedEarly(w, c)
  {
    match c {
      case Registered =>
        assert w.spawned == [w.spawned[0]] + w.spawned[1..];
        PortsCons(w.spawned[0], w.spawned[1..]);
      case Reloaded(list) =>
        ReloadedPorts(w, list);
        var t := Change1(w, c);
        var gone := Ports(w.entities) - Ports(list);
        assert Ports(w.spawned) <= Ports(w.entities);
        if !(Ports(w.spawned) <= Ports(list)) {
          var p :| p in Ports(w.spawned) && p !in Ports(list);
          assert p in Ports(t.spawned) && p !in Ports(t.entities);
        } else {
          forall p
            ensures p in t.acceptors.Keys + Ports(t.spawned) <==> p in Ports(t.entities)
          {
            assert p in Ports(w.entities) <==> p in w.acceptors.Keys || p in Ports(w.spawned);
          }
        }
    }
  }

  /** One listener, on port 80; and the same port on another address. */
  const OLD_ADDRESS := Entity(80, "a", [])
  const NEW_ADDRESS := Entity(80, "b", [])

  /** A port taken out of the configuration before its listener registered: the listener registers all
      the same, and the proxy keeps listening on a port that no entity has. */
  lemma DeletedEarlyKeepsListening()
    ensures var w := Change1(StartUp([OLD_ADDRESS]), Reloaded([]));
            && !Tracked(w) && Possible(w, Registered)
            && Change1(w, Registered).entities == [] && Change1(w, Registered).acceptors == map[80 := "a"]
  {
    BuildOne(OLD_ADDRESS);
    var w := Change1(StartUp([OLD_ADDRESS]), Reloaded([]));
    assert Build([]) == [];
    assert w.spawned == [OLD_ADDRESS] + Without([], Ports([OLD_ADDRESS])) == [OLD_ADDRESS];
    assert w.spawned[0].port in Ports(w.spawned);
  }

  lemma BuildOne(e: Entity)
    ensures Build([e]) == [e]
  {
    assert [e][..0] == [];
  }

  predicate OrderlyRun(w: World, cs: seq<Change>)
    decreases |cs|
  {
    cs == [] || (Possible(w, cs[0]) && NoneDeletedEarly(w, cs[0]) && OrderlyRun(Change1(w, cs[0]), cs[1..]))
  }

  function RunChanges(w: World, cs: seq<Change>): World
    requires OrderlyRun(w, cs)
    decreases |cs|
  {
    if cs == [] then w else RunChanges(Change1(w, cs[0]), cs[1..])
  }

  /** The list read last. */
  function Latest(list: seq<Entity>, cs: seq<Change>): seq<Entity>
    decreases |cs|
  {
    if cs == [] then list else Latest(if cs[0].Reloaded? then cs[0].list else list, cs[1..])
  }

  lemma {:induction false} RunTracks(w: World, list: seq<Entity>, cs: seq<Change>)
    requires Tracked(w) && OrderlyRun(w, cs) && w.entities == Build(list)
    ensures Tracked(RunChanges(w, cs)) && RunChanges(w, cs).entities == Build(Latest(list, cs))
    decreases |cs|
  {
    if cs != [] {
      TrackedIffNoneDeletedEarly(w, cs[0]);
      RunTracks(Change1(w, cs[0]), if cs[0].Reloaded? then cs[0].list else list, cs[1..]);
    }
  }

  /** Reload tracks the configuration: from start-up, after any sequence of reloads and
      registrations in which no unregistered listener's port is taken away, once all spawned
      listeners registered the acceptors are exactly those of the ports in the list read last. */
  lemma AcceptorsTrackConfig(list: seq<Entity>, cs: seq<Change>)
    requires OrderlyRun(StartUp(list), cs)
    ensures var w := RunChanges(StartUp(list), cs);
            && w.acceptors.Keys + Ports(w.spawned) == Ports(Latest(list, cs))
            && (w.spawned == [] ==> w.acceptors.Keys == Ports(Latest(list, cs)))
            && (forall p :: First(w.entities, p) == First(Latest(list, cs), p))
  {
    RunTracks(StartUp(list), list, cs);
    BuildIsFirstWins(Latest(list, cs));
  }

  /** Registering all spawned listeners, in order. */
  function Settle(w: World): World
    decreases |w.spawned|
  {
    if w.spawned == [] then w else Settle(Change1(w, Registered))
  }

  /** Every acceptor is bound to the address now configured for its port. */
  ghost predicate AddressesTracked(w: World) {
    forall e :: e in w.entities && e.port in w.acceptors ==> w.acceptors[e.port] == e.ip
  }

  lemma {:induction false} SettleRegisters(w: World, p: nat)
    requires Sorted(w.spawned)
    ensures Settle(w).entities == w.entities && Settle(w).spawned == []
    ensures p in Settle(w).acceptors <==> p in w.acceptors || p in Ports(w.spawned)
    ensures p in w.acceptors ==> Settle(w).acceptors[p] == w.acceptors[p]
    ensures p !in w.acceptors && p in Ports(w.spawned) ==>
      First(w.spawned, p).Some? && Settle(w).acceptors[p] == First(w.spawned, p).value.ip
    decreases |w.spawned|
  {
    if w.spawned != [] {
      HeadBelow(w.spawned);
      SettleRegisters(Change1(w, Registered), p);
    }
  }

  lemma {:induction false} WithoutMembers(s: seq<Entity>, ports: set<nat>)
    ensures forall e :: e in Without(s, ports) <==> e in s && e.port !in ports
  {
    if s != [] {
      WithoutMembers(s[1..], ports);
      assert s == [s[0]] + s[1..];
    }
  }

  lemma {:induction false} WithoutSorted(s: seq<Entity>, ports: set<nat>)
    requires Sorted(s)
    ensures Sorted(Without(s, ports))
    decreases |s|
  {
    if s != [] {
      var t := Without(s[1..], ports);
      WithoutSorted(s[1..], ports);
      if s[0].port in ports {
        assert Without(s, ports) == t;
      } else {
        HeadBelow(s);
        WithoutPorts(s[1..], ports);
        SortedCons(s[0], t);
        assert Without(s, ports) == [s[0]] + t;
      }
    }
  }

  lemma {:induction false} FirstIsTheOne(s: seq<Entity>, e: Entity)
    requires Sorted(s) && e in s
    ensures First(s, e.port) == Some(e)
  {
    HeadBelow(s);
    if e != s[0] {
      assert e in s[1..];
      FirstIsTheOne(s[1..], e);
    }
  }

  /** What a settled reload binds on a configured port: the old address if it was configured before. */
  lemma SettledReload(w: World, list: seq<Entity>, f: Entity)
    requires w.spawned == [] && w.acceptors.Keys == Ports(w.entities) && Sorted(w.entities)
    requires f in Build(list)
    ensures var s := Settle(Change1(w, Reloaded(list)));
            && s.entities == Build(list)
            && f.port in s.acceptors
            && s.acceptors[f.port] == if f.port in w.acceptors then w.acceptors[f.port] else f.ip
  {
    var next, t := Build(list), Change1(w, Reloaded(list));
    BuildIsFirstWins(list);
    ReloadedPorts(w, list);
    WithoutSorted(next, Ports(w.entities));
    WithoutMembers(next, Ports(w.entities));
    assert t.spawned == Without(next, Ports(w.entities));
    SettleRegisters(t, f.port);
    FirstIsTheOne(next, f);
    FirstFinds(next, f.port);
    if f.port !in w.acceptors {
      FirstIsTheOne(t.spawned, f);
      FirstFinds(t.spawned, f.port);
    }
  }

  /** Changing only the address of a port is not noticed: a settled reload leaves every acceptor on
      the configured address if and only if no kept port changed its address. */
  lemma AddressesTrackedIffKeptPortsKeepThem(w: World, list: seq<Entity>)
    requires Sorted(w.entities) && w.spawned == [] && w.acceptors.Keys == Ports(w.entities) && AddressesTracked(w)
    ensures AddressesTracked(Settle(Change1(w, Reloaded(list))))
            <==> (forall e, f :: e in w.entities && f in Build(list) && e.port == f.port ==> e.ip == f.ip)
  {
    var s := Settle(Change1(w, Reloaded(list)));
    forall f | f in Build(list)
      ensures s.entities == Build(list) && f.port in s.acceptors
      ensures s.acceptors[f.port] == if f.port in w.acceptors then w.acceptors[f.port] else f.ip
    {
      SettledReload(w, list, f);
    }
    SettleKeepsEntities(Change1(w, Reloaded(list)));
    forall e | e in w.entities
      ensures e.port in w.acceptors && w.acceptors[e.port] == e.ip
    {
      assert e.port in Ports(w.entities);
    }
    forall p | p in w.acceptors
      ensures First(w.entities, p).Some? && First(w.entities, p).value in w.entities && First(w.entities, p).value.port == p
    {
      FirstFinds(w.entities, p);
    }
  }

  lemma {:induction false} SettleKeepsEntities(w: World)
    ensures Settle(w).entities == w.entities
    decreases |w.spawned|
  {
    if w.spawned != [] { SettleKeepsEntities(Change1(w, Registered)); }
  }

  /** A port that keeps its number but changes its address: after a settled reload the acceptor is still
      bound to the old one. */
  lemma ChangedAddressKeepsOldAcceptor()
    ensures var w := Settle(Change1(Settle(StartUp([OLD_ADDRESS])), Reloaded([NEW_ADDRESS])));
            w.entities == [NEW_ADDRESS] && w.acceptors == map[80 := "a"] && !AddressesTracked(w)
  {
    BuildOne(OLD_ADDRESS);
    BuildOne(NEW_ADDRESS);
    var w0 := StartUp([OLD_ADDRESS]);
    var w1 := World([OLD_ADDRESS], map[80 := "a"], []);
    assert Change1(w0, Registered) == w1;
    assert Settle(w0) == w1;
    assert Ports([OLD_ADDRESS]) == Ports([NEW_ADDRESS]) == {80};
    var w2 := Change1(w1, Reloaded([NEW_ADDRESS]));
    assert Without([OLD_ADDRESS], {80}) == [] && Without([NEW_ADDRESS], {80}) == [];
    assert w2 == World([NEW_ADDRESS], map[80 := "a"], []);
    assert NEW_ADDRESS in w2.entities;
  }

  /** handle_config_change and the registration in listener, on the shared map. */
  class Acceptors {
    const config: Config
    var acceptors: map<nat, string>
    var spawned: seq<Entity>

    function View(): World
      reads this, config
    {
      World(config.entities, acceptors, spawned)
    }

    constructor (config: Config)
      requires Sorted(config.entities)
      ensures this.config == config
      ensures View() == World(config.entities, map[], config.entities)
    {
      this.config := config;
      acceptors, spawned := map[], [];
      new;
      for i := 0 to |config.entities|
        invariant spawned == config.entities[..i] && acceptors == map[]
      {
        spawned := spawned + [config.entities[i]];
      }
    }

    method SpawnAll(add: seq<Entity>)
      modifies this`spawned
      ensures spawned == old(spawned) + add
    {
      for i := 0 to |add|
        invariant spawned == old(spawned) + add[..i]
      {
        spawned := spawned + [add[i]];
      }
    }

    method EraseAll(del: seq<Entity>)
      modifies this`acceptors
      ensures acceptors == old(acceptors) - Ports(del)
    {
      for i := 0 to |del|
        invariant acceptors == old(acceptors) - Ports(del[..i])
      {
        PortsAppend(del[..i], [del[i]]);
        assert del[..i + 1] == del[..i] + [del[i]];
        assert Ports([del[i]]) == {del[i].port};
        if del[i].port in acceptors {
          acceptors := acceptors - {del[i].port};
        }
      }
      assert del[..|del|] == del;
    }

    /** One round after the file changed. */
    method HandleConfigChange(list: seq<Entity>)
      requires Sorted(config.entities)
      modifies this, config
      ensures Sorted(config.entities)
      ensures View() == Change1(old(View()), Reloaded(list))
    {
      config.ParseConf(list);
      SpawnAll(config.add);
      EraseAll(config.del);
    }

    /** A spawned listener has bound its address and puts its acceptor into the map. */
    method RegisterNext()
      requires spawned != []
      modifies this
      ensures View() == Change1(old(View()), Registered)
    {
      var e := spawned[0];
      if e.port !in acceptors {
        acceptors := acceptors[e.port := e.ip];
      }
      spawned := spawned[1..];
    }
  }
}
