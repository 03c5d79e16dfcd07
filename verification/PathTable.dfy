/**
 * The table of live paths the path manager keeps (internal/core/path_manager.go), as values: which names are served,
 * under which configuration, through every reload, request and closing.
 */
module PathTable {
  import opened Bytes
  import opened PathConf

  /** A live path: the configuration it was created under and the contents of it that it was last given. */
  datatype Entry = Entry(confName: string, conf: PathConf)

  type Confs = map<string, PathConf>
  type Table = map<string, Entry>

  /** Accepted configurations: those for a regular expression are the ones whose name starts with a tilde. */
  predicate WellNamed(confs: Confs) {
    forall c :: c in confs ==> confs[c].Sound() && (confs[c].regexp.Some? <==> Tilde(c))
  }

  predicate Tilde(name: string) {
    name != "" && name[0] == '~'
  }

  /** A configured name that is not a regular expression. */
  predicate Plain(confs: Confs, c: string) {
    c in confs && confs[c].regexp.None?
  }

  // ---------------------------------------------------------------- looking a configuration up

  predicate PathNameChar(c: char) {
    '0' <= c <= '9' || 'a' <= c <= 'z' || 'A' <= c <= 'Z' || c == '_' || c == '-' || c == '/' || c == '.' || c == '~'
  }

  predicate ValidPathName(name: string) {
    && name != "" && name[0] != '/' && name[|name| - 1] != '/'
    && forall i :: 0 <= i < |name| ==> PathNameChar(name[i])
  }

  /** `c` is a configuration the lookup of `name` may return; `matches` is what the regular expressions match. */
  predicate Finds(confs: Confs, matches: (string, string) -> bool, name: string, c: string) {
    && ValidPathName(name)
    && c in confs
    && (c == name || (name !in confs && confs[c].regexp.Some? && matches(confs[c].regexp.value, name)))
  }

  /** By their codes: hyphen to nine, the letters, underscore and tilde. */
  predicate NameCode(x: int) {
    0x2D <= x <= 0x39 || 0x41 <= x <= 0x5A || x == 0x5F || 0x61 <= x <= 0x7A || x == 0x7E
  }

  /** A name is one or more of these characters, with no slash at either end. */
  lemma ValidNameIff(name: string)
    ensures ValidPathName(name) <==>
      && name != "" && (forall i :: 0 <= i < |name| ==> NameCode(name[i] as int))
      && name[0] as int != 0x2F && name[|name| - 1] as int != 0x2F
  {
    forall i | 0 <= i < |name|
      ensures PathNameChar(name[i]) <==> NameCode(name[i] as int)
    {
    }
  }

  // ---------------------------------------------------------------- reloading

  /** The paths of `c` outlive the reload: the configuration is still there, the same or with a live update. */
  predicate Survives(c: string, before: Confs, after: Confs) {
    c in before && c in after && (after[c] == before[c] || CanBeUpdated(before[c], after[c]))
  }

  /** So a configuration's paths outlive a reload exactly if it is the same, or plain and only updated live. */
  lemma SurvivesIff(c: string, before: Confs, after: Confs)
    requires WellNamed(before) && WellNamed(after)
    ensures Survives(c, before, after) <==>
      && c in before && c in after
      && (|| after[c] == before[c]
          || (&& before[c].regexp.None?
              && after[c] == before[c].(live := after[c].live,
                                        publishIPs := Copied(before[c].publishIPs),
                                        readIPs := Copied(before[c].readIPs))))
  {
    hide Copied;
    if c in before && c in after {
      LiveUpdate(before[c], after[c]);
    }
  }

  function Given(confs: Confs, c: string): Entry
    requires c in confs
  {
    Entry(c, confs[c])
  }

  function Kept(t: Table, before: Confs, after: Confs): Table {
    map n | n in t && Survives(t[n].confName, before, after) :: Given(after, t[n].confName)
  }

  /** One path for every plain configuration. */
  function Initial(confs: Confs): Table {
    map c | c in confs && confs[c].regexp.None? :: Given(confs, c)
  }

  function Reloaded(t: Table, before: Confs, after: Confs): Table {
    Initial(after) + Kept(t, before, after)
  }

  // ---------------------------------------------------------------- runs

  datatype Event =
    | Reload(confs: Confs)
    | Request(name: string, confName: string)        // a describe, a reader or a publisher, accepted
    | Ended(name: string)                            // the path stopped by itself

  datatype Manager = Manager(confs: Confs, table: Table)

  /** A path stops by itself only when its configuration is for a regular expression and it is not in use. */
  predicate Possible(m: Manager, matches: (string, string) -> bool, e: Event) {
    match e
    case Reload(confs) => WellNamed(confs)
    case Request(name, c) => Finds(m.confs, matches, name, c)
    case Ended(name) => name in m.table && m.table[name].conf.regexp.Some?
  }

  function Next(m: Manager, e: Event): Manager {
    match e
    case Reload(confs) => Manager(confs, Reloaded(m.table, m.confs, confs))
    case Request(name, c) =>
      if name in m.table || c !in m.confs then m else m.(table := m.table[name := Given(m.confs, c)])
    case Ended(name) => m.(table := m.table - {name})
  }

  predicate AllPossible(m: Manager, matches: (string, string) -> bool, events: seq<Event>)
    decreases |events|
  {
    events == [] || (Possible(m, matches, events[0]) && AllPossible(Next(m, events[0]), matches, events[1..]))
  }

  function After(m: Manager, events: seq<Event>): Manager
    decreases |events|
  {
    if events == [] then m else After(Next(m, events[0]), events[1..])
  }

  /**
   * Every path belongs to a configuration that exists and has its present contents, and a path of a plain
   * configuration has that configuration's name.
   */
  predicate Consistent(m: Manager) {
    && WellNamed(m.confs)
    && forall n :: n in m.table ==>
        && m.table[n].confName in m.confs
        && m.table[n].conf == m.confs[m.table[n].confName]
        && (!Tilde(m.table[n].confName) ==> m.table[n].confName == n)
  }

  lemma NextIsConsistent(m: Manager, matches: (string, string) -> bool, e: Event)
    requires Consistent(m) && Possible(m, matches, e)
    ensures Consistent(Next(m, e))
  {
    hide PathConf.Sound;
    if e.Request? && e.confName != e.name {
      assert Tilde(e.confName);
    }
  }

  /** True after every sequence of reloads, requests and endings. */
  lemma {:induction false} EveryRunConsistent(m: Manager, matches: (string, string) -> bool, events: seq<Event>)
    requires Consistent(m) && AllPossible(m, matches, events)
    ensures Consistent(After(m, events))
    decreases |events|
  {
    if events != [] {
      NextIsConsistent(m, matches, events[0]);
      hide Consistent, Next, Possible;
      EveryRunConsistent(Next(m, events[0]), matches, events[1..]);
    }
  }

  // ---------------------------------------------------------------- every plain configuration is served

  /** Every plain configuration is served by a path of its own. */
  ghost predicate Served(m: Manager) {
    forall c :: Plain(m.confs, c) ==> c in m.table && m.table[c] == Entry(c, m.confs[c])
  }

  /** The reload makes `c` a plain configuration while a regular expression's path of that name lives on. */
  predicate Shadows(m: Manager, after: Confs, c: string) {
    Plain(after, c) && c in m.table && m.table[c].confName != c && Survives(m.table[c].confName, m.confs, after)
  }

  ghost predicate Shadowing(m: Manager, e: Event) {
    e.Reload? && exists c :: Shadows(m, e.confs, c)
  }

  /** Plain configurations stay served through everything but a reload that shadows one, and not through that. */
  lemma ServedUnlessShadowed(m: Manager, matches: (string, string) -> bool, e: Event)
    requires Consistent(m) && Served(m) && Possible(m, matches, e)
    ensures Served(Next(m, e)) <==> !Shadowing(m, e)
  {
    hide PathConf.Sound, ValidPathName;
    var next := Next(m, e);
    match e
    case Reload(confs) =>
      forall c | Plain(confs, c)
        ensures c in next.table && (next.table[c] == Entry(c, confs[c]) <==> !Shadows(m, confs, c))
      {
        AfterReload(m, confs, c);
      }
    case Request(name, c) =>
    case Ended(name) =>
      assert !Plain(m.confs, name);
  }

  /** What a reload leaves at one plain name. */
  lemma AfterReload(m: Manager, after: Confs, c: string)
    requires Consistent(m) && WellNamed(after) && Plain(after, c)
    ensures c in Reloaded(m.table, m.confs, after)
    ensures Reloaded(m.table, m.confs, after)[c] == Entry(c, after[c]) <==> !Shadows(m, after, c)
  {
    var kept := Kept(m.table, m.confs, after);
    if c in kept {
      assert kept[c].confName == m.table[c].confName;
    }
  }

  ghost predicate NeverShadowing(m: Manager, events: seq<Event>)
    decreases |events|
  {
    events == [] || (!Shadowing(m, events[0]) && NeverShadowing(Next(m, events[0]), events[1..]))
  }

  lemma {:induction false} ServesFrom(m: Manager, matches: (string, string) -> bool, events: seq<Event>)
    requires Consistent(m) && Served(m) && AllPossible(m, matches, events) && NeverShadowing(m, events)
    ensures Served(After(m, events))
    decreases |events|
  {
    if events != [] {
      NextIsConsistent(m, matches, events[0]);
      ServedUnlessShadowed(m, matches, events[0]);
      hide Consistent, Next, Possible, Served, Shadowing;
      ServesFrom(Next(m, events[0]), matches, events[1..]);
    }
  }

  /** So from the start of the manager, in every run without such a reload, every plain configuration is served. */
  lemma EveryRunServes(confs: Confs, matches: (string, string) -> bool, events: seq<Event>)
    requires WellNamed(confs)
    requires
      var m := Manager(confs, Initial(confs));
      AllPossible(m, matches, events) && NeverShadowing(m, events)
    ensures
      var m := After(Manager(confs, Initial(confs)), events);
      Consistent(m) && Served(m)
  {
    var m := Manager(confs, Initial(confs));
    assert Consistent(m) && Served(m);
    EveryRunConsistent(m, matches, events);
    ServesFrom(m, matches, events);
  }

  /** The paths of plain configurations. */
  function PlainPart(m: Manager): Table {
    map n | n in m.table && m.table[n].conf.regexp.None? :: m.table[n]
  }

  /** Being served means: the plain part of the table is what a fresh start with the same configurations would have. */
  lemma ServedIsFreshStart(m: Manager)
    requires Consistent(m)
    ensures Served(m) <==> PlainPart(m) == Initial(m.confs)
  {
    var plain, start := PlainPart(m), Initial(m.confs);
    if Served(m) {
      forall n | n in plain
        ensures n in start && start[n] == plain[n]
      {
        assert !Tilde(plain[n].confName);
      }
      forall c | c in start
        ensures c in plain
      {
        assert Plain(m.confs, c);
      }
    } else {
      var c :| Plain(m.confs, c) && !(c in m.table && m.table[c] == Entry(c, m.confs[c]));
      assert c in start;
    }
  }

  /** A reload changes no path it keeps except in live camera fields and in how the address lists are written. */
  lemma ReloadKeeps(m: Manager, after: Confs, n: string)
    requires Consistent(m) && WellNamed(after) && n in m.table && Survives(m.table[n].confName, m.confs, after)
    ensures
      var t := Reloaded(m.table, m.confs, after);
      && n in t && t[n].confName == m.table[n].confName
      && (|| t[n].conf == m.table[n].conf
          || t[n].conf == m.table[n].conf.Clone().(live := t[n].conf.live))
      && multiset(Texts(t[n].conf.publishIPs)) == multiset(Texts(m.table[n].conf.publishIPs))
      && multiset(Texts(t[n].conf.readIPs)) == multiset(Texts(m.table[n].conf.readIPs))
      && RulesOf(t[n].conf) == RulesOf(m.table[n].conf)
      && (m.table[n].conf.regexp.Some? ==> t[n] == m.table[n])
  {
    var c := m.table[n].confName;
    if after[c] != m.confs[c] {
      LiveUpdate(m.confs[c], after[c]);
      CopiedIff(m.confs[c].publishIPs);
      CopiedIff(m.confs[c].readIPs);
    }
    hide Copied, RulesOf, PathConf.Sound;
  }

  lemma KeptWhole(m: Manager)
    requires Consistent(m) && forall c :: Plain(m.confs, c) ==> c in m.table
    ensures Kept(m.table, m.confs, m.confs) == m.table && Reloaded(m.table, m.confs, m.confs) == m.table
  {
    hide WellNamed;
    assert Kept(m.table, m.confs, m.confs) == m.table;
  }

  lemma ReloadTwice(m: Manager, after: Confs)
    requires Consistent(m) && WellNamed(after)
    ensures
      var t := Reloaded(m.table, m.confs, after);
      Reloaded(t, after, after) == t
  {
    NextIsConsistent(m, (_, _) => false, Reload(after));
    hide Reloaded, WellNamed;
    KeptWhole(Manager(after, Reloaded(m.table, m.confs, after)));
  }

  /**
   * A shadowing reload, for any regular expression `c` and any name `n` it matches: a client makes the path `n`, then
   * a configuration called `n` is added. The path lives on under `c`, and once it ends nothing serves `n`.
   */
  lemma ShadowExample(c: string, n: string, any: PathConf, own: PathConf, matches: (string, string) -> bool)
    requires Tilde(c) && any.Sound() && any.regexp.Some? && ValidPathName(n) && matches(any.regexp.value, n)
    requires !Tilde(n) && own.Sound() && own.regexp.None?
    ensures
      var before, after := map[c := any], map[c := any, n := own];
      var m := Manager(before, Initial(before));
      var events := [Request(n, c), Reload(after)];
      && WellNamed(before)
      && AllPossible(m, matches, events)
      && Shadowing(Next(m, events[0]), events[1])
      && After(m, events) == Manager(after, map[n := Entry(c, any)])
      && Possible(After(m, events), matches, Ended(n))
      && Plain(after, n) && n !in Next(After(m, events), Ended(n)).table
  {
    hide PathConf.Sound, ValidPathName;
    var before, after := map[c := any], map[c := any, n := own];
    var m := Manager(before, Initial(before));
    assert m.table == map[];
    var asked := Next(m, Request(n, c));
    assert asked == Manager(before, map[n := Entry(c, any)]);
    assert Shadows(asked, after, n);
    var reloaded := Next(asked, Reload(after));
    assert reloaded == Manager(after, map[n := Entry(c, any)]);
    var events := [Request(n, c), Reload(after)];
    assert events[1..] == [Reload(after)] && [Reload(after)][1..] == [];
    assert AllPossible(reloaded, matches, []) && After(reloaded, []) == reloaded;
    assert Possible(m, matches, events[0]) && Possible(asked, matches, Reload(after));
    assert AllPossible(asked, matches, [Reload(after)]) && After(asked, [Reload(after)]) == reloaded;
  }
}
