/** What the settings code shares: reading an option as text, list or DNS servers, writing or
    clearing options, and saying which part of a store stayed as it was. */
module UciOptions {
  import opened Wrappers
  import opened Texts
  import opened UciStore

  function TextOf(v: Option<Value>): Option<string> {
    if v.Some? && v.value.Text? then Some(v.value.text) else None
  }

  /** `unwrap_list` */
  function First(v: Option<Value>): string {
    match v
    case Some(Text(t)) => t
    case Some(Items(items)) => if items == [] then "" else items[0]
    case None => ""
  }

  /** Python's text of an option value, as the uci command line gets it. */
  function PyText(v: Value): string {
    match v
    case Text(t) => t
    case Items(items) => "[" + Joined(items) + "]"
  }

  function Joined(items: seq<string>): string {
    if items == [] then "" else "'" + items[0] + "'" + if |items| == 1 then "" else ", " + Joined(items[1..])
  }

  function DnsList(v: Option<Value>): seq<string> {
    match v
    case Some(Text(t)) => Words(t)
    case Some(Items(items)) => items
    case None => []
  }

  /** `zip(("dns1", "dns2"), reversed(dns))` */
  function NthDns(v: Option<Value>, i: nat): Option<string> {
    var dns := Reversed(DnsList(v));
    if i < |dns| then Some(dns[i]) else None
  }

  function Dns(dns1: Option<string>, dns2: Option<string>): seq<string> {
    (if dns2.Some? then [dns2.value] else []) + (if dns1.Some? then [dns1.value] else [])
  }

  lemma DnsReadsBack(dns1: Option<string>, dns2: Option<string>)
    requires dns1 != Some("") && dns2 != Some("")
    ensures NthDns(Listed(Dns(dns1, dns2)), 0) == if dns1.Some? then dns1 else dns2
    ensures NthDns(Listed(Dns(dns1, dns2)), 1) == if dns1.Some? then dns2 else None
  {
    var dns := Dns(dns1, dns2);
    AllShown(dns);
    if dns1.Some? && dns2.Some? {
      assert dns == [dns2.value, dns1.value] && dns[1..] == [dns1.value];
      assert Reversed(dns[1..]) == [dns1.value];
      assert Reversed(dns) == [dns1.value, dns2.value];
    } else if dns != [] {
      assert dns[1..] == [] && Reversed(dns) == dns;
    }
  }

  lemma EmptyTexts()
    ensures Stored("") == None && Listed([""]) == None
  {
  }

  lemma FirstOfOne(v: string)
    ensures First(Listed([v])) == v && First(Stored(v)) == v
  {
    assert Shown([v]) == if v == "" then [] else [v] by { assert [v][1..] == []; }
  }

  /** No option of this section changed. */
  ghost predicate SameOptions(st: Store, st': Store, c: string, s: string) {
    forall o :: Get(st', c, s, o) == Get(st, c, s, o)
  }

  /** Nothing in this config changed. */
  ghost predicate ConfigKept(st: Store, st': Store, c: string) {
    && HasConfig(st', c) == HasConfig(st, c)
    && Order(st', c) == Order(st, c)
    && (forall s :: Kind(st', c, s) == Kind(st, c, s))
    && (forall s, o :: Get(st', c, s, o) == Get(st, c, s, o))
  }

  /** Nothing in another config changed. */
  ghost predicate OtherConfigsKept(st: Store, st': Store, c: string) {
    && (forall c', s, o :: c' != c ==> Get(st', c', s, o) == Get(st, c', s, o))
    && (forall c', s :: c' != c ==> Kind(st', c', s) == Kind(st, c', s))
  }

  /** A whole number with a default; None where `int` raises. */
  function ReadNat(st: Store, c: string, s: string, o: string, default: nat): Option<nat> {
    match Get(st, c, s, o)
    case None => Some(default)
    case Some(Text(t)) => Int(t)
    case Some(Items(_)) => None
  }

  /** A flag with a default; None where `parse_bool` raises. */
  function ReadBool(st: Store, c: string, s: string, o: string, default: bool): Option<bool> {
    match Get(st, c, s, o)
    case None => Some(default)
    case Some(v) => ParseBool(v)
  }

  lemma NatReadsBack(st: Store, c: string, s: string, o: string, n: nat, default: nat)
    requires Get(st, c, s, o) == Stored(Decimal(n))
    ensures ReadNat(st, c, s, o, default) == Some(n)
  {
    DecimalReadsBack(n);
  }

  lemma BoolReadsBack(st: Store, c: string, s: string, o: string, b: bool, default: bool)
    requires Get(st, c, s, o) == Stored(StoreBool(b))
    ensures ReadBool(st, c, s, o, default) == Some(b)
  {
  }

  lemma NoOptions(st: Store, c: string, s: string)
    ensures !Has(st, c, s) ==> forall o :: Get(st, c, s, o) == None
  {
  }

  /** `set_option` when there is a value, `del_option` when there is none. */
  method SetOrDelete(backend: UciBackend, c: string, s: string, o: string, v: Option<string>)
    requires backend.Valid() && (backend.raised || Has(backend.View(), c, s))
    modifies backend
    ensures backend.InBlock() && backend.raised == old(backend.raised)
    ensures !backend.raised ==>
      OptionIs(old(backend.View()), backend.View(), c, s, o, if v.Some? then Stored(v.value) else None)
  {
    if v.Some? {
      backend.SetOption(c, s, o, v.value);
    } else {
      backend.DelOption(c, s, o);
    }
  }

  /** Options deleted one after the other, missing or not. */
  method DelOptions(backend: UciBackend, c: string, s: string, options: seq<string>)
    requires backend.Valid()
    modifies backend
    ensures backend.InBlock() && backend.raised == old(backend.raised)
    ensures !backend.raised ==>
      && ShapeOf(backend.View()) == ShapeOf(old(backend.View()))
      && (forall c', s', o :: Get(backend.View(), c', s', o) ==
            if o in options && s' == s && c' == c then None else Get(old(backend.View()), c', s', o))
  {
    var i := 0;
    while i < |options|
      invariant 0 <= i <= |options|
      invariant backend.InBlock() && backend.raised == old(backend.raised)
      invariant !backend.raised ==>
        && ShapeOf(backend.View()) == ShapeOf(old(backend.View()))
        && (forall c', s', o :: Get(backend.View(), c', s', o) ==
              if o in options[..i] && s' == s && c' == c then None else Get(old(backend.View()), c', s', o))
    {
      hide ConfigsIn, ShapeOf, OrderIn, KindIn, Get;
      backend.DelOption(c, s, options[i]);
      assert options[..i + 1] == options[..i] + [options[i]];
      i := i + 1;
    }
    assert options[..i] == options;
  }

  // ---------------------------------------------------------------- whole sections

  type Pairs = seq<(string, string)>

  predicate Names(pairs: Pairs, o: string) {
    exists i :: 0 <= i < |pairs| && pairs[i].0 == o
  }

  /** The last of the pairs that name an option. */
  predicate LastAt(pairs: Pairs, i: int) {
    0 <= i < |pairs| && forall j | i < j < |pairs| :: pairs[j].0 != pairs[i].0
  }

  /** The section holds these pairs, and its other options are as before. */
  ghost predicate PairsIn(st: Store, st': Store, c: string, s: string, pairs: Pairs) {
    && (forall i :: LastAt(pairs, i) ==> Get(st', c, s, pairs[i].0) == Stored(pairs[i].1))
    && (forall o :: !Names(pairs, o) ==> Get(st', c, s, o) == Get(st, c, s, o))
  }

  /** Nothing outside these sections of one config changed, and the config still lists its sections. */
  ghost predicate OnlySections(st: Store, st': Store, c: string, names: set<string>) {
    && OnlyConfig(st, st', c)
    && (forall s :: s !in names ==> Kind(st', c, s) == Kind(st, c, s))
    && (forall s, o :: s !in names ==> Get(st', c, s, o) == Get(st, c, s, o))
    && (WellOrdered(st, c) ==> WellOrdered(st', c))
  }

  /** Nothing in another config changed. */
  ghost predicate OnlyConfig(st: Store, st': Store, c: string) {
    forall c' :: c' != c ==> ConfigKept(st, st', c')
  }

  lemma OnlyConfigTwice(st: Store, st': Store, st'': Store, c: string)
    requires OnlyConfig(st, st', c) && OnlyConfig(st', st'', c)
    ensures OnlyConfig(st, st'', c)
  {
    hide ConfigKept;
    forall c' | c' != c ensures ConfigKept(st, st'', c') {
      KeptTwice(st, st', st'', c');
    }
  }

  lemma OnlyNothing(st: Store, c: string, names: set<string>)
    ensures OnlySections(st, st, c, names)
  {
  }

  lemma OnlyBoth(st: Store, st': Store, st'': Store, c: string, names: set<string>, more: set<string>)
    requires OnlySections(st, st', c, names) && OnlySections(st', st'', c, more)
    ensures OnlySections(st, st'', c, names + more)
  {
    hide Get, ConfigsIn, ShapeOf, KindIn, OrderIn, WellOrdered;
    OnlyConfigTwice(st, st', st'', c);
  }

  lemma OnlyAdded(st: Store, st': Store, c: string, s: string, kind: string)
    requires SectionIs(st, st', c, s, kind)
    ensures OnlySections(st, st', c, {s})
  {
    hide Get, ConfigsIn, ShapeOf, KindIn, OrderIn, WellOrdered;
    if WellOrdered(st, c) { AddedOrdered(st, st', c, s, kind); }
    forall c' | c' != c ensures ConfigKept(st, st', c') {
      assert Order(st, c') + [] == Order(st, c');
    }
  }

  lemma OnlyGone(st: Store, st': Store, c: string, s: string)
    requires SectionGone(st, st', c, s)
    ensures OnlySections(st, st', c, {s})
  {
    hide Get, ConfigsIn, ShapeOf, KindIn, OrderIn, WellOrdered;
    if WellOrdered(st, c) { GoneOrdered(st, st', c, s); }
  }

  lemma OnlyOptions(st: Store, st': Store, c: string, s: string)
    requires ShapeOf(st') == ShapeOf(st)
    requires forall c', s', o :: !(s' == s && c' == c) ==> Get(st', c', s', o) == Get(st, c', s', o)
    ensures OnlySections(st, st', c, {s})
  {
    hide Get, ConfigsIn, ShapeOf, KindIn, OrderIn;
  }

  lemma OnlyOptionsOfTwo(st: Store, st': Store, c: string, s: string, t: string)
    requires ShapeOf(st') == ShapeOf(st)
    requires forall c', s', o :: !((s' == s || s' == t) && c' == c) ==> Get(st', c', s', o) == Get(st, c', s', o)
    ensures OnlySections(st, st', c, {s, t})
  {
    hide Get, ConfigsIn, ShapeOf, KindIn, OrderIn;
  }

  lemma OnlyMore(st: Store, st': Store, c: string, names: set<string>, more: set<string>)
    requires OnlySections(st, st', c, names) && names <= more
    ensures OnlySections(st, st', c, more)
  {
    hide Get, ConfigsIn, ShapeOf, KindIn, WellOrdered;
  }

  lemma OnlyItsConfig(st: Store, st': Store, c: string, names: set<string>)
    requires OnlySections(st, st', c, names)
    ensures OnlyConfig(st, st', c)
  {
    hide ConfigKept, Get, ConfigsIn, ShapeOf, KindIn, OrderIn;
  }

  /** What these frames say about one section outside of them. */
  lemma OnlyOthers(st: Store, st': Store, c: string, names: set<string>, s: string)
    requires OnlySections(st, st', c, names) && s !in names
    ensures Kind(st', c, s) == Kind(st, c, s) && SameOptions(st, st', c, s)
  {
    hide Get, ConfigsIn, ShapeOf, KindIn, WellOrdered;
  }

  /** `set_option` one after the other on one section. */
  method SetOptions(backend: UciBackend, c: string, s: string, pairs: Pairs)
    requires backend.Valid() && !backend.raised && Has(backend.View(), c, s)
    modifies backend
    ensures backend.InBlock() && !backend.raised
    ensures ShapeOf(backend.View()) == ShapeOf(old(backend.View()))
    ensures PairsIn(old(backend.View()), backend.View(), c, s, pairs)
    ensures OnlySections(old(backend.View()), backend.View(), c, {s})
  {
    hide ConfigsIn, ShapeOf, KindIn, Get, Stored, WellOrdered, OnlySections, ConfigKept;
    var i := 0;
    while i < |pairs|
      invariant 0 <= i <= |pairs|
      invariant backend.InBlock() && !backend.raised
      invariant ShapeOf(backend.View()) == ShapeOf(old(backend.View()))
      invariant PairsIn(old(backend.View()), backend.View(), c, s, pairs[..i])
      invariant forall c', s', o :: !(s' == s && c' == c) ==>
        Get(backend.View(), c', s', o) == Get(old(backend.View()), c', s', o)
    {
      ghost var before := backend.View();
      backend.SetOption(c, s, pairs[i].0, pairs[i].1);
      OneMorePair(old(backend.View()), before, backend.View(), c, s, pairs, i);
      i := i + 1;
    }
    assert pairs[..i] == pairs;
    OnlyOptions(old(backend.View()), backend.View(), c, s);
  }

  lemma OneMorePair(st: Store, st': Store, st'': Store, c: string, s: string, pairs: Pairs, i: nat)
    requires i < |pairs| && PairsIn(st, st', c, s, pairs[..i])
    requires OptionIs(st', st'', c, s, pairs[i].0, Stored(pairs[i].1))
    ensures PairsIn(st, st'', c, s, pairs[..i + 1])
  {
    hide Get, ConfigsIn, ShapeOf, Stored;
    var was, now := pairs[..i], pairs[..i + 1];
    assert now == was + [pairs[i]];
    forall k | LastAt(now, k) ensures Get(st'', c, s, now[k].0) == Stored(now[k].1) {
      if k < i {
        assert LastAt(was, k) by { assert forall j | k < j < i :: was[j] == now[j]; }
        assert now[i].0 != now[k].0;
      }
    }
    forall o | !Names(now, o) ensures Get(st'', c, s, o) == Get(st, c, s, o) {
      assert now[i].0 != o;
      assert !Names(was, o) by { assert forall j | 0 <= j < i :: was[j] == now[j]; }
    }
  }

  /** `add_section` with a name and the options that follow it. */
  method WriteSection(backend: UciBackend, c: string, kind: string, s: string, pairs: Pairs)
    requires backend.Valid()
    modifies backend
    ensures backend.InBlock() && backend.raised == (old(backend.raised) || !HasConfig(old(backend.View()), c))
    ensures !backend.raised ==>
      && OnlySections(old(backend.View()), backend.View(), c, {s})
      && Kind(backend.View(), c, s) == Some(kind)
      && PairsIn(old(backend.View()), backend.View(), c, s, pairs)
  {
    hide ConfigsIn, ShapeOf, KindIn, OrderIn, Get, Stored, OnlySections;
    backend.AddSection(c, kind, s);
    if backend.raised { return; }
    ghost var before := backend.View();
    OnlyAdded(old(backend.View()), before, c, s, kind);
    SetOptions(backend, c, s, pairs);
    OnlyBoth(old(backend.View()), before, backend.View(), c, {s}, {s});
    assert {s} + {s} == {s};
  }

  /** The only pair that names an option decides it. */
  lemma PairHolds(st: Store, st': Store, c: string, s: string, pairs: Pairs, i: nat)
    requires PairsIn(st, st', c, s, pairs) && i < |pairs|
    requires forall j | 0 <= j < |pairs| && j != i :: pairs[j].0 != pairs[i].0
    ensures Get(st', c, s, pairs[i].0) == Stored(pairs[i].1)
  {
    hide Get, Stored;
    assert LastAt(pairs, i);
  }

  lemma KeptTwice(st: Store, st': Store, st'': Store, c: string)
    requires ConfigKept(st, st', c) && ConfigKept(st', st'', c)
    ensures ConfigKept(st, st'', c)
  {
    hide Get, ConfigsIn, ShapeOf, KindIn, OrderIn;
  }
}
