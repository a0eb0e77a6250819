/** The mock handler's port assignment: ports are popped from one map, list by list. */
module MockNetworks {
  import opened Wrappers

  datatype Port = Port(id: string, configurable: bool, description: string)

  /** The port lists of wan, lan, guest and none, in this order. */
  type Nets = n: seq<seq<Port>> | |n| == 4 witness [[], [], [], []]

  type Wanted = w: seq<seq<string>> | |w| == 4 witness [[], [], [], []]

  datatype Firewall = Firewall(ssh: bool, http: bool, https: bool)

  function Flat<T>(lists: seq<seq<T>>): seq<T> {
    if lists == [] then [] else lists[0] + Flat(lists[1..])
  }

  function Ids(ports: seq<Port>): (r: seq<string>)
    ensures |r| == |ports| && forall i | 0 <= i < |ports| :: r[i] == ports[i].id
  {
    seq(|ports|, i requires 0 <= i < |ports| => ports[i].id)
  }

  /** The ports that are (or are not) configurable, in order. */
  function OfKind(ports: seq<Port>, configurable: bool): (r: seq<Port>)
    ensures forall p :: p in r <==> p in ports && p.configurable == configurable
  {
    if ports == [] then []
    else (if ports[0].configurable == configurable then [ports[0]] else []) + OfKind(ports[1..], configurable)
  }

  function Find(ports: seq<Port>, id: string): (r: Option<nat>)
    ensures r.Some? ==> r.value < |ports| && ports[r.value].id == id
    ensures r.None? ==> id !in Ids(ports)
  {
    if ports == [] then None
    else if ports[0].id == id then Some(0)
    else match Find(ports[1..], id)
      case None =>
        assert forall i | 0 < i < |ports| :: Ids(ports)[i] == Ids(ports[1..])[i - 1];
        None
      case Some(i) => Some(i + 1)
  }

  function Drop(ports: seq<Port>, i: nat): seq<Port>
    requires i < |ports|
  {
    ports[..i] + ports[i + 1..]
  }

  /** What was popped for one list, and the map afterwards. */
  datatype Taken = Taken(ports: seq<Port>, left: seq<Port>)

  /** The inner loop; None where a port is missing or not configurable. */
  function Take(ids: seq<string>, left: seq<Port>): Option<Taken>
    decreases |ids|
  {
    if ids == [] then Some(Taken([], left))
    else match Find(left, ids[0])
      case None => None
      case Some(i) =>
        if !left[i].configurable then None
        else match Take(ids[1..], Drop(left, i))
          case None => None
          case Some(rest) => Some(Taken([left[i]] + rest.ports, rest.left))
  }

  datatype AllTaken = AllTaken(nets: seq<seq<Port>>, left: seq<Port>)

  /** The outer loop. */
  function TakeAll(lists: seq<seq<string>>, left: seq<Port>): (r: Option<AllTaken>)
    ensures r.Some? ==> |r.value.nets| == |lists|
    decreases |lists|
  {
    if lists == [] then Some(AllTaken([], left))
    else match Take(lists[0], left)
      case None => None
      case Some(first) =>
        match TakeAll(lists[1..], first.left)
        case None => None
        case Some(rest) => Some(AllTaken([first.ports] + rest.nets, rest.left))
  }

  /** The networks after an update; None where it answers False. */
  function Updated(nets: Nets, wanted: Wanted): Option<Nets> {
    match TakeAll(wanted, Flat(nets))
    case None => None
    case Some(all) =>
      if OfKind(all.left, true) != [] then None else Some(all.nets[3 := all.nets[3] + all.left])
  }

  // ---------------------------------------------------------------- popping

  lemma DropOne(ports: seq<Port>, i: nat)
    requires i < |ports|
    ensures multiset([ports[i]]) + multiset(Drop(ports, i)) == multiset(ports)
    ensures Distinct(Ids(ports)) ==> Distinct(Ids(Drop(ports, i))) && ports[i].id !in Ids(Drop(ports, i))
  {
    assert ports == ports[..i] + [ports[i]] + ports[i + 1..];
    var left := Drop(ports, i);
    if Distinct(Ids(ports)) {
      assert forall j | 0 <= j < |left| :: Ids(left)[j] == Ids(ports)[if j < i then j else j + 1];
    }
  }

  lemma {:induction false} IdsJoin(a: seq<Port>, b: seq<Port>)
    ensures Ids(a + b) == Ids(a) + Ids(b)
  {
  }

  lemma {:induction false} OfKindJoin(a: seq<Port>, b: seq<Port>, configurable: bool)
    ensures OfKind(a + b, configurable) == OfKind(a, configurable) + OfKind(b, configurable)
  {
    if a == [] {
      assert a + b == b;
    } else {
      assert (a + b)[1..] == a[1..] + b;
      OfKindJoin(a[1..], b, configurable);
    }
  }

  /** Popping a configurable port takes it out of the configurable ones and nothing else. */
  lemma DropKinds(ports: seq<Port>, i: nat)
    requires i < |ports| && ports[i].configurable
    ensures multiset([ports[i].id]) + multiset(Ids(OfKind(Drop(ports, i), true))) == multiset(Ids(OfKind(ports, true)))
    ensures OfKind(Drop(ports, i), false) == OfKind(ports, false)
  {
    hide OfKind, Ids, Drop;
    var a, p, b := ports[..i], ports[i], ports[i + 1..];
    DropSplit(ports, i);
    OtherKind(a, p, b);
    IdsAround(a, p, b);
    Middle(Ids(OfKind(a, true)), p.id, Ids(OfKind(b, true)));
  }

  lemma DropSplit(ports: seq<Port>, i: nat)
    requires i < |ports|
    ensures ports == ports[..i] + ([ports[i]] + ports[i + 1..]) && Drop(ports, i) == ports[..i] + ports[i + 1..]
  {
  }

  lemma OtherKind(a: seq<Port>, p: Port, b: seq<Port>)
    requires p.configurable
    ensures OfKind(a + ([p] + b), false) == OfKind(a + b, false)
  {
    OneOfKind(p);
    hide OfKind;
    KindsAround(a, p, b, false);
    OfKindJoin(a, b, false);
    assert [] + OfKind(b, false) == OfKind(b, false);
  }

  lemma IdsAround(a: seq<Port>, p: Port, b: seq<Port>)
    requires p.configurable
    ensures var k, l := Ids(OfKind(a, true)), Ids(OfKind(b, true));
      Ids(OfKind(a + ([p] + b), true)) == k + ([p.id] + l) && Ids(OfKind(a + b, true)) == k + l
  {
    OneOfKind(p);
    hide OfKind, Ids;
    var k, l := OfKind(a, true), OfKind(b, true);
    KindsAround(a, p, b, true);
    OfKindJoin(a, b, true);
    IdsJoin(k, [p] + l);
    IdsJoin([p], l);
    IdsJoin(k, l);
  }

  lemma KindsAround(a: seq<Port>, p: Port, b: seq<Port>, configurable: bool)
    ensures OfKind(a + ([p] + b), configurable) == OfKind(a, configurable) + (OfKind([p], configurable) + OfKind(b, configurable))
  {
    OfKindJoin(a, [p] + b, configurable);
    OfKindJoin([p], b, configurable);
  }

  lemma OneOfKind(p: Port)
    ensures OfKind([p], p.configurable) == [p] && OfKind([p], !p.configurable) == [] && Ids([p]) == [p.id]
  {
    assert [p][1..] == [];
  }

  /** What the inner loop does to the map. */
  lemma {:induction false} TakeNames(ids: seq<string>, left: seq<Port>)
    requires Take(ids, left).Some?
    ensures Ids(Take(ids, left).value.ports) == ids
    decreases |ids|
  {
    if ids == [] {
      assert Ids([]) == [];
    } else {
      hide Ids, Drop;
      var i := Find(left, ids[0]).value;
      TakeNames(ids[1..], Drop(left, i));
      OneOfKind(left[i]);
      IdsJoin([left[i]], Take(ids[1..], Drop(left, i)).value.ports);
      assert ids == [ids[0]] + ids[1..];
    }
  }

  lemma {:induction false} TakePorts(ids: seq<string>, left: seq<Port>)
    requires Take(ids, left).Some?
    ensures var r := Take(ids, left).value; multiset(r.ports) + multiset(r.left) == multiset(left)
    decreases |ids|
  {
    if ids != [] {
      hide Drop, Ids;
      var i := Find(left, ids[0]).value;
      var rest := Take(ids[1..], Drop(left, i)).value;
      DropOne(left, i);
      TakePorts(ids[1..], Drop(left, i));
      Chain([left[i]], rest.ports, rest.left, Drop(left, i), left);
    }
  }

  /** The configurable ports that are left are the others, and the rest is untouched. */
  lemma {:induction false} TakeKinds(ids: seq<string>, left: seq<Port>)
    requires Take(ids, left).Some?
    ensures var r := Take(ids, left).value;
      && multiset(ids) + multiset(Ids(OfKind(r.left, true))) == multiset(Ids(OfKind(left, true)))
      && OfKind(r.left, false) == OfKind(left, false)
    decreases |ids|
  {
    if ids == [] {
      NothingTaken(left);
    } else {
      TakeStep(ids, left);
      hide OfKind, Ids, Drop, Take, Find;
      var i := Find(left, ids[0]).value;
      var dropped := Drop(left, i);
      DropKinds(left, i);
      TakeKinds(ids[1..], dropped);
      assert ids == [ids[0]] + ids[1..];
      Chain([ids[0]], ids[1..], Ids(OfKind(Take(ids, left).value.left, true)), Ids(OfKind(dropped, true)), Ids(OfKind(left, true)));
    }
  }

  lemma NothingTaken(left: seq<Port>)
    ensures Take([], left) == Some(Taken([], left))
  {
  }

  lemma TakeStep(ids: seq<string>, left: seq<Port>)
    requires ids != [] && Take(ids, left).Some?
    ensures Find(left, ids[0]).Some?
    ensures var i := Find(left, ids[0]).value;
      && i < |left| && left[i].configurable && left[i].id == ids[0]
      && Take(ids[1..], Drop(left, i)).Some? && Take(ids, left).value.left == Take(ids[1..], Drop(left, i)).value.left
  {
  }

  lemma {:induction false} TakeDistinct(ids: seq<string>, left: seq<Port>)
    requires Take(ids, left).Some? && Distinct(Ids(left))
    ensures Distinct(Ids(Take(ids, left).value.left))
    decreases |ids|
  {
    if ids != [] {
      hide Ids, Distinct, Drop;
      var i := Find(left, ids[0]).value;
      DropOne(left, i);
      TakeDistinct(ids[1..], Drop(left, i));
    }
  }

  lemma JoinLater<T>(a: seq<T>, x: T, b: seq<T>)
    ensures a + ([x] + b) == a + [x] + b
  {
  }

  /** Taking a first part and then a second is taking both. */
  lemma Chain<T>(x: seq<T>, a: seq<T>, b: seq<T>, between: seq<T>, whole: seq<T>)
    requires multiset(x) + multiset(between) == multiset(whole)
    requires multiset(a) + multiset(b) == multiset(between)
    ensures multiset(x + a) + multiset(b) == multiset(whole)
  {
  }

  /** The inner loop fails only when a requested port is not there to be taken. */
  lemma {:induction false} TakeSucceeds(ids: seq<string>, left: seq<Port>)
    requires Distinct(Ids(left)) && multiset(ids) <= multiset(Ids(OfKind(left, true)))
    ensures Take(ids, left).Some?
    decreases |ids|
  {
    if ids == [] {
      NothingTaken(left);
    } else {
      hide OfKind, Ids, Distinct, Drop, Take, Find;
      FirstIsThere(ids, Ids(OfKind(left, true)));
      ConfigurableFound(left, ids[0]);
      var i := Find(left, ids[0]).value;
      DropOne(left, i);
      DropKinds(left, i);
      RestIsThere(ids, left[i].id, Ids(OfKind(Drop(left, i), true)), Ids(OfKind(left, true)));
      TakeSucceeds(ids[1..], Drop(left, i));
      TakeOn(ids, left);
    }
  }

  lemma RestIsThere(ids: seq<string>, id: string, rest: seq<string>, all: seq<string>)
    requires ids != [] && ids[0] == id && multiset(ids) <= multiset(all) && multiset([id]) + multiset(rest) == multiset(all)
    ensures multiset(ids[1..]) <= multiset(rest)
  {
    assert ids == [ids[0]] + ids[1..];
    LessOne(id, ids[1..], rest);
  }

  lemma TakeOn(ids: seq<string>, left: seq<Port>)
    requires ids != [] && Find(left, ids[0]).Some?
    requires var i := Find(left, ids[0]).value; i < |left| && left[i].configurable && Take(ids[1..], Drop(left, i)).Some?
    ensures Take(ids, left).Some?
  {
    hide Find, Drop;
  }

  lemma FirstIsThere(ids: seq<string>, all: seq<string>)
    requires ids != [] && multiset(ids) <= multiset(all)
    ensures ids[0] in all
  {
    assert ids[0] in multiset(ids);
  }

  lemma LessOne<T>(x: T, a: seq<T>, b: seq<T>)
    ensures multiset([x]) + multiset(a) <= multiset([x]) + multiset(b) ==> multiset(a) <= multiset(b)
    ensures multiset([x]) + multiset(a) == multiset([x]) + multiset(b) ==> multiset(a) == multiset(b)
  {
    forall y ensures (multiset([x]) + multiset(a))[y] == multiset([x])[y] + multiset(a)[y] { }
    forall y ensures (multiset([x]) + multiset(b))[y] == multiset([x])[y] + multiset(b)[y] { }
  }

  lemma ConfigurableFound(left: seq<Port>, id: string)
    requires Distinct(Ids(left)) && id in Ids(OfKind(left, true))
    ensures Find(left, id).Some? && left[Find(left, id).value].configurable
  {
    hide OfKind, Find, Ids;
    var found := OfKind(left, true);
    var k :| 0 <= k < |found| && Ids(found)[k] == id;
    assert found[k] in found;
    var j :| 0 <= j < |left| && left[j] == found[k];
    assert Ids(left)[j] == id;
    assert Ids(left)[Find(left, id).value] == id;
  }

  lemma {:induction false} AllNames(lists: seq<seq<string>>, left: seq<Port>)
    requires TakeAll(lists, left).Some?
    ensures forall k | 0 <= k < |lists| :: Ids(TakeAll(lists, left).value.nets[k]) == lists[k]
    decreases |lists|
  {
    if lists != [] {
      hide Ids, Take;
      TakeNames(lists[0], left);
      AllNames(lists[1..], Take(lists[0], left).value.left);
    }
  }

  lemma {:induction false} AllPorts(lists: seq<seq<string>>, left: seq<Port>)
    requires TakeAll(lists, left).Some?
    ensures var r := TakeAll(lists, left).value; multiset(Flat(r.nets)) + multiset(r.left) == multiset(left)
    decreases |lists|
  {
    if lists != [] {
      hide Take;
      var first := Take(lists[0], left).value;
      TakePorts(lists[0], left);
      AllPorts(lists[1..], first.left);
      var rest := TakeAll(lists[1..], first.left).value;
      Chain(first.ports, Flat(rest.nets), rest.left, first.left, left);
      assert ([first.ports] + rest.nets)[1..] == rest.nets;
    }
  }

  lemma {:induction false} AllKinds(lists: seq<seq<string>>, left: seq<Port>)
    requires TakeAll(lists, left).Some?
    ensures var r := TakeAll(lists, left).value;
      && multiset(Flat(lists)) + multiset(Ids(OfKind(r.left, true))) == multiset(Ids(OfKind(left, true)))
      && OfKind(r.left, false) == OfKind(left, false)
    decreases |lists|
  {
    if lists != [] {
      hide OfKind, Ids, Distinct, Take;
      var first := Take(lists[0], left).value;
      TakeKinds(lists[0], left);
      AllKinds(lists[1..], first.left);
      var rest := TakeAll(lists[1..], first.left).value;
      Chain(lists[0], Flat(lists[1..]), Ids(OfKind(rest.left, true)), Ids(OfKind(first.left, true)), Ids(OfKind(left, true)));
    }
  }

  lemma {:induction false} TakeAllSucceeds(lists: seq<seq<string>>, left: seq<Port>)
    requires Distinct(Ids(left)) && multiset(Flat(lists)) <= multiset(Ids(OfKind(left, true)))
    ensures TakeAll(lists, left).Some?
    decreases |lists|
  {
    if lists != [] {
      hide OfKind, Ids, Distinct, Take;
      assert multiset(Flat(lists)) == multiset(lists[0]) + multiset(Flat(lists[1..]));
      TakeSucceeds(lists[0], left);
      TakeKinds(lists[0], left);
      TakeDistinct(lists[0], left);
      var rest := Take(lists[0], left).value.left;
      LessMany(lists[0], Flat(lists[1..]), Ids(OfKind(rest, true)));
      TakeAllSucceeds(lists[1..], rest);
    }
  }

  lemma LessMany<T>(x: seq<T>, a: seq<T>, b: seq<T>)
    ensures multiset(x) + multiset(a) <= multiset(x) + multiset(b) ==> multiset(a) <= multiset(b)
  {
    forall y ensures (multiset(x) + multiset(a))[y] == multiset(x)[y] + multiset(a)[y] { }
    forall y ensures (multiset(x) + multiset(b))[y] == multiset(x)[y] + multiset(b)[y] { }
  }

  // ---------------------------------------------------------------- what an update means

  /** The lists name every configurable port once and nothing else. */
  ghost predicate Partitions(wanted: Wanted, nets: Nets) {
    multiset(Flat(wanted)) == multiset(Ids(OfKind(Flat(nets), true)))
  }

  ghost predicate UniqueIds(nets: Nets) {
    Distinct(Ids(Flat(nets)))
  }

  /** It answers True exactly for partitions of the configurable ports. */
  lemma AcceptsExactlyPartitions(nets: Nets, wanted: Wanted)
    requires UniqueIds(nets)
    ensures Updated(nets, wanted).Some? <==> Partitions(wanted, nets)
  {
    var ports := Flat(nets);
    if Partitions(wanted, nets) {
      TakeAllSucceeds(wanted, ports);
    }
    if TakeAll(wanted, ports).Some? {
      AllKinds(wanted, ports);
      var left := OfKind(TakeAll(wanted, ports).value.left, true);
      assert left != [] ==> left[0].id in multiset(Ids(left)) by {
        if left != [] { assert Ids(left)[0] == left[0].id; }
      }
      assert left == [] ==> Ids(left) == [];
    }
  }

  lemma FourLists<T>(lists: seq<seq<T>>, more: seq<T>)
    requires |lists| == 4
    ensures multiset(Flat(lists[3 := lists[3] + more])) == multiset(Flat(lists)) + multiset(more)
  {
    var longer := lists[3 := lists[3] + more];
    FlatOfFour(lists);
    FlatOfFour(longer);
  }

  lemma FlatOfFour<T>(lists: seq<seq<T>>)
    requires |lists| == 4
    ensures Flat(lists) == lists[0] + (lists[1] + (lists[2] + (lists[3] + [])))
  {
    assert lists[1..][1..] == lists[2..] && lists[2..][1..] == lists[3..] && lists[3..][1..] == [];
    assert Flat(lists[3..]) == lists[3] + [];
    assert Flat(lists[2..]) == lists[2] + Flat(lists[3..]);
    assert Flat(lists[1..]) == lists[1] + Flat(lists[2..]);
  }

  /** Every list becomes what was asked; ports that are not configurable end up in none; no port is
      lost, made or given a second place. */
  lemma UpdateConservesPorts(nets: Nets, wanted: Wanted)
    requires Updated(nets, wanted).Some?
    ensures var after := Updated(nets, wanted).value;
      && (forall k | 0 <= k < 3 :: Ids(after[k]) == wanted[k])
      && Ids(after[3]) == wanted[3] + Ids(OfKind(Flat(nets), false))
      && multiset(Flat(after)) == multiset(Flat(nets))
      && (UniqueIds(nets) ==> UniqueIds(after))
  {
    hide TakeAll, OfKind, Ids, Distinct, Flat;
    var all := TakeAll(wanted, Flat(nets)).value;
    AllNames(wanted, Flat(nets));
    AllPorts(wanted, Flat(nets));
    AllKinds(wanted, Flat(nets));
    FourLists(all.nets, all.left);
    AllOneKind(all.left);
    IdsJoin(all.nets[3], all.left);
    if UniqueIds(nets) { SamePortsUnique(Flat(nets), Flat(Updated(nets, wanted).value)); }
  }

  lemma {:induction false} AllOneKind(ports: seq<Port>)
    requires OfKind(ports, true) == []
    ensures OfKind(ports, false) == ports
  {
    if ports != [] {
      assert forall p | p in ports :: p in OfKind(ports, true) <==> p.configurable;
      AllOneKind(ports[1..]);
    }
  }

  lemma Middle<T>(a: seq<T>, p: T, b: seq<T>)
    ensures multiset(a + ([p] + b)) == multiset([p]) + multiset(a + b)
  {
  }

  lemma {:induction false} IdsAsMultiset(ports: seq<Port>, other: seq<Port>)
    requires multiset(ports) == multiset(other)
    ensures multiset(Ids(ports)) == multiset(Ids(other))
    decreases |ports|
  {
    if ports == [] {
      assert |multiset(other)| == 0;
      assert other == [];
    } else {
      var p, rest := ports[0], ports[1..];
      assert p in multiset(other);
      var i :| 0 <= i < |other| && other[i] == p;
      var a, b := other[..i], other[i + 1..];
      assert ports == [p] + rest && other == a + ([p] + b);
      OneOfKind(p);
      hide Ids;
      Middle(a, p, b);
      LessOne(p, rest, a + b);
      IdsAsMultiset(rest, a + b);
      IdsOfTwo(p, rest, a, b);
    }
  }

  lemma IdsOfTwo(p: Port, rest: seq<Port>, a: seq<Port>, b: seq<Port>)
    requires multiset(Ids(rest)) == multiset(Ids(a + b))
    ensures multiset(Ids([p] + rest)) == multiset(Ids(a + ([p] + b)))
  {
    OneOfKind(p);
    hide Ids;
    IdsJoin([p], rest);
    IdsJoin(a, [p] + b);
    IdsJoin([p], b);
    IdsJoin(a, b);
    Middle(Ids(a), p.id, Ids(b));
  }

  lemma {:induction false} DistinctByCount(items: seq<string>)
    ensures Distinct(items) <==> forall x :: multiset(items)[x] <= 1
  {
    if items != [] {
      var first, rest := items[0], items[1..];
      DistinctFirst(items);
      DistinctByCount(rest);
      assert items == [first] + rest;
      assert first in rest <==> multiset(rest)[first] >= 1;
      if Distinct(items) {
        forall x ensures multiset(items)[x] <= 1 { assert x == first ==> multiset(rest)[x] == 0; }
      } else if Distinct(rest) {
        assert multiset(items)[first] >= 2;
      } else {
        var x :| multiset(rest)[x] > 1;
        assert multiset(items)[x] > 1;
      }
    }
  }

  lemma SamePortsUnique(ports: seq<Port>, other: seq<Port>)
    requires multiset(ports) == multiset(other) && Distinct(Ids(ports))
    ensures Distinct(Ids(other))
  {
    IdsAsMultiset(ports, other);
    DistinctByCount(Ids(ports));
    DistinctByCount(Ids(other));
  }

  function After(nets: Nets, wanted: Wanted): Nets {
    if Updated(nets, wanted).Some? then Updated(nets, wanted).value else nets
  }

  function AfterAll(nets: Nets, run: seq<Wanted>): Nets
    decreases |run|
  {
    if run == [] then nets else AfterAll(After(nets, run[0]), run[1..])
  }

  /** Over every run of updates, accepted or not, the same ports are there, each once. */
  lemma {:induction false} EveryRunKeepsThePorts(nets: Nets, run: seq<Wanted>)
    requires UniqueIds(nets)
    ensures UniqueIds(AfterAll(nets, run)) && multiset(Flat(AfterAll(nets, run))) == multiset(Flat(nets))
    decreases |run|
  {
    if run != [] {
      if Updated(nets, run[0]).Some? { UpdateConservesPorts(nets, run[0]); }
      EveryRunKeepsThePorts(After(nets, run[0]), run[1..]);
    }
  }

  // ---------------------------------------------------------------- the handler

  class MockNetworksHandler {
    var networks: Nets
    var firewall: Firewall
    var guideSet: bool

    constructor (networks: Nets, firewall: Firewall)
      ensures this.networks == networks && this.firewall == firewall && !guideSet
    {
      this.networks, this.firewall, guideSet := networks, firewall, false;
    }

    /** `update_settings` */
    method UpdateSettings(wanted: Wanted, newFirewall: Firewall) returns (ok: bool)
      requires UniqueIds(networks)
      modifies this
      ensures ok == Partitions(wanted, old(networks))
      ensures ok ==>
        && (forall k | 0 <= k < 3 :: Ids(networks[k]) == wanted[k])
        && Ids(networks[3]) == wanted[3] + Ids(OfKind(Flat(old(networks)), false))
        && multiset(Flat(networks)) == multiset(Flat(old(networks)))
      ensures !ok ==> networks == old(networks)
      ensures networks == After(old(networks), wanted) && UniqueIds(networks)
      ensures firewall == (if ok then newFirewall else old(firewall)) && guideSet
    {
      guideSet := true;
      hide TakeAll, OfKind, Ids, Distinct, Partitions, UniqueIds, Flat;
      AcceptsExactlyPartitions(networks, wanted);
      var all := TakeLists(wanted, Flat(networks));
      if all.None? || OfKind(all.value.left, true) != [] { return false; }
      UpdateConservesPorts(networks, wanted);
      networks := all.value.nets[3 := all.value.nets[3] + all.value.left];
      firewall := newFirewall;
      return true;
    }

    /** The ports of all lists, one list after the other. */
    method TakeLists(wanted: Wanted, portsMap: seq<Port>) returns (r: Option<AllTaken>)
      ensures r == TakeAll(wanted, portsMap)
    {
      hide Take;
      var left := portsMap;
      var newNets: seq<seq<Port>> := [];
      var k := 0;
      assert wanted[0..] == wanted;
      assert var all := TakeAll(wanted, left); all.Some? ==> [] + all.value.nets == all.value.nets;
      while k < |wanted|
        invariant 0 <= k <= |wanted|
        invariant var rest := TakeAll(wanted[k..], left);
          TakeAll(wanted, portsMap) ==
            if rest.Some? then Some(AllTaken(newNets + rest.value.nets, rest.value.left)) else None
      {
        assert wanted[k..][1..] == wanted[k + 1..];
        var taken := TakeList(wanted[k], left);
        if taken.None? { return None; }
        ghost var rest := TakeAll(wanted[k + 1..], taken.value.left);
        if rest.Some? { JoinLater(newNets, taken.value.ports, rest.value.nets); }
        newNets := newNets + [taken.value.ports];
        left := taken.value.left;
        k := k + 1;
      }
      assert newNets + [] == newNets;
      return Some(AllTaken(newNets, left));
    }

    /** The ports of one list, popped one after the other. */
    method TakeList(ids: seq<string>, portsMap: seq<Port>) returns (r: Option<Taken>)
      ensures r == Take(ids, portsMap)
    {
      hide Drop, Ids;
      var left, taken := portsMap, [];
      var i := 0;
      assert ids[0..] == ids;
      assert var all := Take(ids, left); all.Some? ==> [] + all.value.ports == all.value.ports;
      while i < |ids|
        invariant 0 <= i <= |ids|
        invariant var rest := Take(ids[i..], left);
          Take(ids, portsMap) == if rest.Some? then Some(Taken(taken + rest.value.ports, rest.value.left)) else None
      {
        assert ids[i..][1..] == ids[i + 1..];
        var found := Find(left, ids[i]);
        if found.None? || !left[found.value].configurable { return None; }
        ghost var rest := Take(ids[i + 1..], Drop(left, found.value));
        if rest.Some? { JoinLater(taken, left[found.value], rest.value.ports); }
        taken := taken + [left[found.value]];
        left := Drop(left, found.value);
        i := i + 1;
      }
      assert taken + [] == taken;
      return Some(Taken(taken, left));
    }
  }
}
