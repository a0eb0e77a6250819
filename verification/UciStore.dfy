/** The uci configuration and the transaction object that edits it.

    A store is what the `uci` command reads and writes: per config an ordered list of
    sections, per section its type and its options.  Callers see a store through four
    observers, HasConfig, Order, Kind and Get, and every edit says what it does to each. */
module UciStore {
  import opened Wrappers

  datatype Value = Text(text: string) | Items(items: seq<string>)

  datatype Section = Section(kind: string, data: map<string, Value>)

  /** order lists every section once, in file order. */
  datatype Config = Config(order: seq<string>, sections: map<string, Section>)

  type Store = map<string, Config>

  /** The sections of a config without their options. */
  datatype Outline = Outline(order: seq<string>, kinds: map<string, string>)

  type Shape = map<string, Outline>

  // ---------------------------------------------------------------- reading

  function OutlineOf(cfg: Config): Outline {
    Outline(cfg.order, map s | s in cfg.sections :: cfg.sections[s].kind)
  }

  function ShapeOf(st: Store): Shape {
    map c | c in st :: OutlineOf(st[c])
  }

  function ConfigsIn(shape: Shape): set<string> {
    shape.Keys
  }

  function OrderIn(shape: Shape, c: string): seq<string> {
    if c in shape then shape[c].order else []
  }

  function KindIn(shape: Shape, c: string, s: string): Option<string> {
    if c in shape && s in shape[c].kinds then Some(shape[c].kinds[s]) else None
  }

  predicate HasConfig(st: Store, c: string) {
    c in Configs(st)
  }

  function Configs(st: Store): set<string> {
    ConfigsIn(ShapeOf(st))
  }

  function Order(st: Store, c: string): seq<string> {
    OrderIn(ShapeOf(st), c)
  }

  function Kind(st: Store, c: string, s: string): Option<string> {
    KindIn(ShapeOf(st), c, s)
  }

  /** `section_exists` */
  predicate Has(st: Store, c: string, s: string) {
    Kind(st, c, s).Some?
  }

  lemma HasNeedsConfig(st: Store, c: string, s: string)
    requires Has(st, c, s)
    ensures HasConfig(st, c)
  {
  }

  /** `get_option_named` without its default. */
  function Get(st: Store, c: string, s: string, o: string): Option<Value> {
    if c in st && s in st[c].sections && o in st[c].sections[s].data
    then Some(st[c].sections[s].data[o])
    else None
  }

  lemma OptionNeedsSection(st: Store, c: string, s: string, o: string)
    requires Get(st, c, s, o).Some?
    ensures Has(st, c, s)
  {
  }

  /** `get_option_named` with a text default. */
  function GetOr(st: Store, c: string, s: string, o: string, default: string): Value {
    Get(st, c, s, o).GetOr(Text(default))
  }

  function OfKind(st: Store, c: string, names: seq<string>, kind: string): (r: seq<string>)
    ensures forall n | n in r :: n in names && Kind(st, c, n) == Some(kind)
  {
    if names == [] then []
    else (if Kind(st, c, names[0]) == Some(kind) then [names[0]] else []) + OfKind(st, c, names[1..], kind)
  }

  /** `get_sections_by_type`: section names in file order. */
  function SectionsByType(st: Store, c: string, kind: string): (r: seq<string>)
    ensures forall n | n in r :: Kind(st, c, n) == Some(kind)
  {
    OfKind(st, c, Order(st, c), kind)
  }

  lemma {:induction false} OfKindSame(st: Store, st': Store, c: string, names: seq<string>, kind: string)
    requires forall s | s in names :: Kind(st, c, s) == Kind(st', c, s)
    ensures OfKind(st, c, names, kind) == OfKind(st', c, names, kind)
  {
    if names != [] { OfKindSame(st, st', c, names[1..], kind); }
  }

  lemma {:induction false} OfKindAppends(st: Store, c: string, names: seq<string>, more: seq<string>, kind: string)
    ensures OfKind(st, c, names + more, kind) == OfKind(st, c, names, kind) + OfKind(st, c, more, kind)
  {
    hide Kind;
    if names == [] {
      assert names + more == more;
    } else {
      assert names + more == [names[0]] + (names[1..] + more);
      OfKindFirst(st, c, names[0], names[1..] + more, kind);
      OfKindAppends(st, c, names[1..], more, kind);
    }
  }

  lemma OfKindFirst(st: Store, c: string, first: string, rest: seq<string>, kind: string)
    ensures OfKind(st, c, [first] + rest, kind) ==
      (if Kind(st, c, first) == Some(kind) then [first] else []) + OfKind(st, c, rest, kind)
  {
    CutFirst(first, rest);
    hide Kind;
  }

  lemma {:induction false} OfKindComplete(st: Store, c: string, names: seq<string>, kind: string, n: string)
    requires n in names && Kind(st, c, n) == Some(kind)
    ensures n in OfKind(st, c, names, kind)
  {
    hide ConfigsIn, ShapeOf, KindIn;
    if names[0] != n { OfKindComplete(st, c, names[1..], kind, n); }
  }

  lemma {:induction false} OfKindDistinct(st: Store, c: string, names: seq<string>, kind: string)
    requires Distinct(names)
    ensures Distinct(OfKind(st, c, names, kind))
  {
    if names != [] {
      DistinctFirst(names);
      OfKindDistinct(st, c, names[1..], kind);
      var r := OfKind(st, c, names, kind);
      if Kind(st, c, names[0]) == Some(kind) {
        DistinctFirst(r);
        assert r[1..] == OfKind(st, c, names[1..], kind);
      }
    }
  }

  /** `parse_bool`; None is the UciTypeException. */
  function ParseBool(v: Value): Option<bool> {
    if v in {Text("1"), Text("on"), Text("true"), Text("yes"), Text("enabled")} then Some(true)
    else if v in {Text("0"), Text("off"), Text("false"), Text("no"), Text("disabled")} then Some(false)
    else None
  }

  /** `store_bool` of a boolean */
  function StoreBool(b: bool): (v: string)
    ensures v != "" && ParseBool(Text(v)) == Some(b)
  {
    assert "0" != "1" && "0" != "on" && "0" != "true" && "0" != "yes" && "0" != "enabled";
    if b then "1" else "0"
  }

  // ---------------------------------------------------------------- uci commands on one config

  /** `set c.s=kind`: an existing section keeps its options. */
  function PutSection(cfg: Config, s: string, kind: string): Config {
    if s in cfg.sections then cfg.(sections := cfg.sections[s := cfg.sections[s].(kind := kind)])
    else Config(cfg.order + [s], cfg.sections[s := Section(kind, map[])])
  }

  function Without(names: seq<string>, s: string): (r: seq<string>)
    ensures forall n :: n in r <==> n in names && n != s
  {
    if names == [] then []
    else (if names[0] == s then [] else [names[0]]) + Without(names[1..], s)
  }

  lemma {:induction false} WithoutBoth(names: seq<string>, s: string, t: string)
    ensures Without(Without(names, s), t) == Without(Without(names, t), s)
  {
    if names != [] {
      WithoutBoth(names[1..], s, t);
      WithoutFirst(names[0], Without(names[1..], s), t);
      WithoutFirst(names[0], Without(names[1..], t), s);
      assert [] + Without(names[1..], s) == Without(names[1..], s);
      assert [] + Without(names[1..], t) == Without(names[1..], t);
    }
  }

  lemma WithoutFirst(first: string, rest: seq<string>, s: string)
    ensures Without([first] + rest, s) == (if first == s then [] else [first]) + Without(rest, s)
  {
    assert ([first] + rest)[1..] == rest;
  }

  /** `delete c.s` */
  function DropSection(cfg: Config, s: string): Config {
    Config(Without(cfg.order, s), cfg.sections - {s})
  }

  /** `set c.s.o=v`: the empty value deletes the option. */
  function Stored(v: string): Option<Value> {
    if v == "" then None else Some(Text(v))
  }

  /** `add_list c.s.o=v`: a plain option becomes a list.  `read` never shows an empty item. */
  function WithItem(was: Option<Value>, v: string): Option<Value> {
    if v == "" then was
    else match was
      case None => Some(Items([v]))
      case Some(Text(t)) => Some(Items([t, v]))
      case Some(Items(items)) => Some(Items(items + [v]))
  }

  function WithItems(was: Option<Value>, values: seq<string>): Option<Value>
    decreases |values|
  {
    if values == [] then was else WithItems(WithItem(was, values[0]), values[1..])
  }

  function Shown(values: seq<string>): seq<string> {
    if values == [] then []
    else if values[0] == "" then Shown(values[1..])
    else [values[0]] + Shown(values[1..])
  }

  /** What a list written from scratch looks like to `read`. */
  function Listed(values: seq<string>): Option<Value> {
    if Shown(values) == [] then None else Some(Items(Shown(values)))
  }

  lemma {:induction false} AllShown(values: seq<string>)
    requires "" !in values
    ensures Shown(values) == values
  {
    if values != [] { AllShown(values[1..]); }
  }

  lemma {:induction false} WithItemsAppends(items: seq<string>, values: seq<string>)
    requires items != []
    ensures WithItems(Some(Items(items)), values) == Some(Items(items + Shown(values)))
    decreases |values|
  {
    if values == [] {
      assert items + [] == items;
    } else if values[0] == "" {
      WithItemsAppends(items, values[1..]);
    } else {
      var v, rest := values[0], Shown(values[1..]);
      assert Shown(values) == [v] + rest;
      WithItemsAppends(items + [v], values[1..]);
      hide Shown;
      assert items + [v] + rest == items + ([v] + rest);
    }
  }

  /** Items added to an absent option read back as the non-empty ones, in order. */
  lemma {:induction false} NewListReads(values: seq<string>)
    ensures WithItems(None, values) == Listed(values)
  {
    if values != [] {
      if values[0] == "" {
        NewListReads(values[1..]);
      } else {
        WithItemsAppends([values[0]], values[1..]);
      }
    }
  }

  function PutOption(cfg: Config, s: string, o: string, v: Option<Value>): Config
    requires s in cfg.sections
  {
    var sec := cfg.sections[s];
    cfg.(sections := cfg.sections[s := sec.(data := if v.Some? then sec.data[o := v.value] else sec.data - {o})])
  }

  // ---------------------------------------------------------------- what an edit changes

  /** One option now has this value; every other option is as it was. */
  ghost predicate OptionIs(st: Store, st': Store, c: string, s: string, o: string, v: Option<Value>) {
    && ShapeOf(st') == ShapeOf(st)
    && (forall c', s', o' :: Get(st', c', s', o') == if o' == o && s' == s && c' == c then v else Get(st, c', s', o'))
  }

  /** One section is there with this type, at the end if it is new; no option changed. */
  ghost predicate SectionIs(st: Store, st': Store, c: string, s: string, kind: string) {
    && (forall c' :: HasConfig(st', c') == HasConfig(st, c'))
    && (forall c' :: Order(st', c') == Order(st, c') + if c' == c && !Has(st, c, s) then [s] else [])
    && (forall c', s' :: Kind(st', c', s') == if s' == s && c' == c then Some(kind) else Kind(st, c', s'))
    && (forall c', s', o :: Get(st', c', s', o) == Get(st, c', s', o))
  }

  /** One section is gone with its options; everything else is as it was. */
  ghost predicate SectionGone(st: Store, st': Store, c: string, s: string) {
    && (forall c' :: HasConfig(st', c') == HasConfig(st, c'))
    && (forall c' :: Order(st', c') == if c' == c then Without(Order(st, c), s) else Order(st, c'))
    && (forall c', s' :: Kind(st', c', s') == if s' == s && c' == c then None else Kind(st, c', s'))
    && (forall c', s', o :: Get(st', c', s', o) == if s' == s && c' == c then None else Get(st, c', s', o))
  }

  /** An option of one config. */
  function OptionIn(cfg: Config, s: string, o: string): Option<Value> {
    if s in cfg.sections && o in cfg.sections[s].data then Some(cfg.sections[s].data[o]) else None
  }

  /** The type of a section of one config. */
  function TypeIn(cfg: Config, s: string): Option<string> {
    if s in cfg.sections then Some(cfg.sections[s].kind) else None
  }

  /** What is seen of a config in the store. */
  ghost predicate Seen(st: Store, c: string, cfg: Config) {
    && Order(st, c) == cfg.order
    && (forall s :: Kind(st, c, s) == TypeIn(cfg, s))
    && (forall s, o :: Get(st, c, s, o) == OptionIn(cfg, s, o))
  }

  lemma ConfigSeen(st: Store, c: string)
    requires HasConfig(st, c)
    ensures c in st && Seen(st, c, st[c])
  {
  }

  /** The store with one config rewritten: no other config changed. */
  lemma ConfigRewritten(st: Store, c: string, cfg: Config)
    requires HasConfig(st, c)
    ensures var st' := st[c := cfg];
      && Seen(st', c, cfg)
      && (forall c' :: HasConfig(st', c') == HasConfig(st, c'))
      && (forall c' :: c' != c ==> Order(st', c') == Order(st, c'))
      && (forall c', s :: c' != c ==> Kind(st', c', s) == Kind(st, c', s))
      && (forall c', s, o :: c' != c ==> Get(st', c', s, o) == Get(st, c', s, o))
  {
  }

  lemma PutSectionIs(st: Store, c: string, s: string, kind: string)
    requires HasConfig(st, c)
    ensures SectionIs(st, st[c := PutSection(st[c], s, kind)], c, s, kind)
  {
    ConfigSeen(st, c);
    var cfg, cfg' := st[c], PutSection(st[c], s, kind);
    ConfigRewritten(st, c, cfg');
    assert cfg'.order == cfg.order + if TypeIn(cfg, s).None? then [s] else [] by { assert cfg.order + [] == cfg.order; }
    assert forall s' :: TypeIn(cfg', s') == if s' == s then Some(kind) else TypeIn(cfg, s');
    assert forall s', o :: OptionIn(cfg', s', o) == OptionIn(cfg, s', o);
    hide ShapeOf, OrderIn, KindIn, ConfigsIn, Get, OptionIn, TypeIn, PutSection;
    forall c' ensures Order(st, c') + [] == Order(st, c') { }
  }

  lemma DropSectionGone(st: Store, c: string, s: string)
    requires HasConfig(st, c)
    ensures SectionGone(st, st[c := DropSection(st[c], s)], c, s)
  {
    ConfigSeen(st, c);
    var cfg, cfg' := st[c], DropSection(st[c], s);
    ConfigRewritten(st, c, cfg');
    assert forall s' :: TypeIn(cfg', s') == if s' == s then None else TypeIn(cfg, s');
    assert forall s', o :: OptionIn(cfg', s', o) == if s' == s then None else OptionIn(cfg, s', o);
    assert cfg'.order == Without(cfg.order, s);
    hide ShapeOf, OrderIn, KindIn, ConfigsIn, Get, OptionIn, TypeIn, DropSection, Without;
  }

  lemma PutOptionIs(st: Store, c: string, s: string, o: string, v: Option<Value>)
    requires Has(st, c, s)
    ensures OptionIs(st, st[c := PutOption(st[c], s, o, v)], c, s, o, v)
  {
    assert OutlineOf(PutOption(st[c], s, o, v)) == OutlineOf(st[c]);
  }

  /** The config lists exactly its sections, each once. */
  ghost predicate WellOrdered(st: Store, c: string) {
    Distinct(Order(st, c)) && forall s :: s in Order(st, c) <==> Has(st, c, s)
  }

  lemma {:induction false} WithoutDistinct(names: seq<string>, s: string)
    requires Distinct(names)
    ensures Distinct(Without(names, s))
  {
    if names != [] {
      DistinctFirst(names);
      WithoutDistinct(names[1..], s);
      if names[0] != s {
        DistinctFirst(Without(names, s));
        assert Without(names, s)[1..] == Without(names[1..], s);
      }
    }
  }

  lemma AddedOrdered(st: Store, st': Store, c: string, s: string, kind: string)
    requires WellOrdered(st, c) && SectionIs(st, st', c, s, kind)
    ensures WellOrdered(st', c)
  {
    hide ConfigsIn, ShapeOf, KindIn, OrderIn;
  }

  lemma GoneOrdered(st: Store, st': Store, c: string, s: string)
    requires WellOrdered(st, c) && SectionGone(st, st', c, s)
    ensures WellOrdered(st', c)
  {
    WithoutDistinct(Order(st, c), s);
    hide ConfigsIn, ShapeOf, KindIn, OrderIn;
  }

  // ---------------------------------------------------------------- the transaction object

  /** One `with UciBackend()` block over the files on disk.  `raised` says that an exception is
      on its way out of the block: nothing that follows in the block runs. */
  class UciBackend {
    var committed: Store
    var changes: Store        // CHANGES_DIR: the edited configs, as `export` shows them
    var affected: set<string>
    var raised: bool

    constructor (committed: Store)
      ensures this.committed == committed && changes == map[] && affected == {} && !raised
    {
      this.committed := committed;
      changes := map[];
      affected := {};
      raised := false;
    }

    /** What `export` prints inside the block. */
    function View(): Store
      reads this
    {
      committed + changes
    }

    /** Every pending change belongs to a config that the commit will visit. */
    ghost predicate Valid()
      reads this
    {
      !raised ==> changes.Keys <= affected
    }

    /** Nothing reached the disk, no config came or went, and an exception under way is still under way. */
    twostate predicate InBlock()
      reads this
    {
      Valid() && committed == old(committed) && (old(raised) ==> raised) && Configs(View()) == Configs(old(View()))
    }

    /** `__enter__`, with the write lock held: leftovers of an aborted block are dropped. */
    method Enter()
      modifies this
      ensures Valid() && !raised && affected == {}
      ensures committed == old(committed) && View() == committed
    {
      changes := map[];
      affected := {};
      raised := false;
      assert committed + map[] == committed;
    }

    /** `__exit__`: commit after a normal end, nothing after an exception. */
    method Exit()
      requires Valid()
      modifies this
      ensures raised == old(raised)
      ensures committed == if raised then old(committed) else old(View())
    {
      if !raised {
        Commit();
      }
    }

    /** `commit`: config by config, each reverted once it is written. */
    method Commit()
      requires changes.Keys <= affected
      modifies `committed, `changes
      ensures committed == old(View()) && changes == map[]
    {
      var left := affected;
      while left != {}
        invariant changes.Keys <= left
        invariant View() == old(View())
        decreases left
      {
        var c :| c in left;
        if c in changes {
          committed := committed[c := changes[c]];
          changes := changes - {c};
        }
        left := left - {c};
      }
      assert changes == map[];
      assert View() == committed;
    }

    /** An exception leaves the block from here on. */
    method Raise()
      requires Valid()
      modifies `raised
      ensures raised && InBlock()
    {
      raised := true;
    }

    /** A uci command that rewrote one config, and the note that this config is affected. */
    method Stage(c: string, cfg: Config)
      requires Valid() && !raised && HasConfig(View(), c)
      modifies `changes, `affected
      ensures InBlock() && !raised && View() == old(View())[c := cfg]
    {
      assert c in View();
      changes := changes[c := cfg];
      affected := affected + {c};
    }

    /** `add_section` with a name */
    method AddSection(c: string, kind: string, s: string)
      requires Valid()
      modifies this
      ensures InBlock() && raised == (old(raised) || !HasConfig(old(View()), c))
      ensures !raised ==> SectionIs(old(View()), View(), c, s, kind)
    {
      if raised { return; }
      if !HasConfig(View(), c) { raised := true; return; }
      PutSectionIs(View(), c, s, kind);
      Stage(c, PutSection(View()[c], s, kind));
    }

    /** `add_section` without a name: uci invents one that is not in use.  A failing command is
        ignored and the name comes out empty. */
    method AddAnonymous(c: string, kind: string, invented: string) returns (s: string)
      requires Valid() && invented != "" && !Has(View(), c, invented)
      modifies this
      ensures InBlock() && raised == old(raised)
      ensures s == if !raised && HasConfig(old(View()), c) then invented else ""
      ensures s == "" ==> View() == old(View())
      ensures s != "" ==> SectionIs(old(View()), View(), c, invented, kind)
    {
      if raised || !HasConfig(View(), c) {
        affected := affected + {c};
        return "";
      }
      PutSectionIs(View(), c, invented, kind);
      Stage(c, PutSection(View()[c], invented, kind));
      return invented;
    }

    /** `del_section`; a caller that catches the exception passes catches. */
    method DelSection(c: string, s: string, catches: bool)
      requires Valid()
      modifies this
      ensures InBlock() && raised == (old(raised) || (!catches && !Has(old(View()), c, s)))
      ensures !raised && Has(old(View()), c, s) ==> SectionGone(old(View()), View(), c, s)
      ensures !Has(old(View()), c, s) ==> View() == old(View())
    {
      if raised { return; }
      if !Has(View(), c, s) { raised := !catches; return; }
      DropSectionGone(View(), c, s);
      Stage(c, DropSection(View()[c], s));
    }

    /** `set_option` */
    method SetOption(c: string, s: string, o: string, v: string)
      requires Valid()
      modifies this
      ensures InBlock() && raised == (old(raised) || !Has(old(View()), c, s))
      ensures !raised ==> OptionIs(old(View()), View(), c, s, o, Stored(v))
    {
      if raised { return; }
      if !Has(View(), c, s) { raised := true; return; }
      PutOptionIs(View(), c, s, o, Stored(v));
      Stage(c, PutOption(View()[c], s, o, Stored(v)));
    }

    /** `del_option` with fail_on_error=False, the only way it is called here. */
    method DelOption(c: string, s: string, o: string)
      requires Valid()
      modifies this
      ensures InBlock() && raised == old(raised)
      ensures !raised ==> OptionIs(old(View()), View(), c, s, o, None)
    {
      if raised { return; }
      if Get(View(), c, s, o).Some? {
        PutOptionIs(View(), c, s, o, None);
        Stage(c, PutOption(View()[c], s, o, None));
      } else {
        affected := affected + {c};
      }
    }

    /** `add_to_list`: one command a value, so an empty list asks nothing of the section. */
    method AddToList(c: string, s: string, o: string, values: seq<string>)
      requires Valid()
      modifies this
      ensures InBlock() && raised == (old(raised) || (values != [] && !Has(old(View()), c, s)))
      ensures !raised ==>
        OptionIs(old(View()), View(), c, s, o, WithItems(Get(old(View()), c, s, o), values))
    {
      if raised { return; }
      ghost var start := View();
      var i := 0;
      while i < |values|
        invariant 0 <= i <= |values|
        invariant InBlock() && !raised
        invariant i > 0 ==> Has(start, c, s)
        invariant ShapeOf(View()) == ShapeOf(start)
        invariant forall c', s', o' :: !(o' == o && s' == s && c' == c) ==> Get(View(), c', s', o') == Get(start, c', s', o')
        invariant WithItems(Get(View(), c, s, o), values[i..]) == WithItems(Get(start, c, s, o), values)
      {
        if !Has(View(), c, s) { raised := true; return; }
        var v := WithItem(Get(View(), c, s, o), values[i]);
        PutOptionIs(View(), c, s, o, v);
        assert values[i..][1..] == values[i + 1..];
        Stage(c, PutOption(View()[c], s, o, v));
        i := i + 1;
      }
      affected := affected + {c};
    }

    /** `replace_list` */
    method ReplaceList(c: string, s: string, o: string, values: seq<string>)
      requires Valid()
      modifies this
      ensures InBlock() && raised == (old(raised) || (values != [] && !Has(old(View()), c, s)))
      ensures !raised ==> OptionIs(old(View()), View(), c, s, o, Listed(values))
    {
      NewListReads(values);
      DelOption(c, s, o);
      AddToList(c, s, o, values);
    }
  }
}
