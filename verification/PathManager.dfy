/** The path manager (internal/core/path_manager.go): its maps, updated in place, against the table of PathTable. */
module PathManager {
  import opened Bytes
  import opened PathConf
  import opened PathTable

  /** A path as the manager refers to it: `id` stands for the object's identity. */
  datatype Handle = Handle(id: nat, name: string, confName: string)

  type Paths = map<string, Handle>
  type Told = map<Handle, PathConf>          // the configuration each path was last given
  type Index = map<string, set<Handle>>

  function Members(index: Index, c: string): set<Handle> {
    if c in index then index[c] else {}
  }

  predicate Managed(paths: Paths, h: Handle) {
    h.name in paths && paths[h.name] == h
  }

  /** The index by configuration holds exactly the managed paths, and no empty set. */
  ghost predicate Indexed(paths: Paths, index: Index) {
    && (forall n :: n in paths ==> paths[n].name == n)
    && (forall c :: c in index ==> index[c] != {})
    && (forall h: Handle, c :: h in Members(index, c) <==> Managed(paths, h) && h.confName == c)
  }

  function Added(index: Index, pa: Handle): Index {
    index[pa.confName := Members(index, pa.confName) + {pa}]
  }

  function Removed(index: Index, pa: Handle): Index {
    if Members(index, pa.confName) - {pa} == {} then index - {pa.confName}
    else index[pa.confName := Members(index, pa.confName) - {pa}]
  }

  /** The two differ in live camera fields alone, but for the address lists, which `after` has as a copy writes them. */
  predicate OnlyLive(before: PathConf, after: PathConf) {
    && before.regexp.None?
    && after == before.(live := after.live,
                        publishIPs := Copied(before.publishIPs), readIPs := Copied(before.readIPs))
  }

  /** `c` is for a regular expression that matches the name. */
  predicate ByExpression(confs: Confs, matches: (string, string) -> bool, name: string, c: string) {
    c in confs && confs[c].regexp.Some? && matches(confs[c].regexp.value, name)
  }

  lemma AddedIsIndexed(paths: Paths, index: Index, pa: Handle)
    requires Indexed(paths, index) && pa.name !in paths
    ensures Indexed(paths[pa.name := pa], Added(index, pa))
  {
    var ps, ix := paths[pa.name := pa], Added(index, pa);
    forall h: Handle, c
      ensures h in Members(ix, c) <==> Managed(ps, h) && h.confName == c
    {
      assert h in Members(index, c) <==> Managed(paths, h) && h.confName == c;
    }
  }

  lemma RemovedIsIndexed(paths: Paths, index: Index, pa: Handle)
    requires Indexed(paths, index) && Managed(paths, pa)
    ensures Indexed(paths - {pa.name}, Removed(index, pa))
    ensures forall c :: Members(Removed(index, pa), c) == Members(index, c) - {pa}
  {
    var ps, ix := paths - {pa.name}, Removed(index, pa);
    forall c
      ensures Members(ix, c) == Members(index, c) - {pa}
    {
      if c != pa.confName {
        assert pa !in Members(index, c);
      }
    }
    forall h: Handle, c
      ensures h in Members(ix, c) <==> Managed(ps, h) && h.confName == c
    {
      assert h in Members(index, c) <==> Managed(paths, h) && h.confName == c;
    }
  }

  function EntryOf(told: Told, h: Handle): Entry
    requires h in told
  {
    Entry(h.confName, told[h])
  }

  ghost predicate AllTold(paths: Paths, told: Told) {
    forall n :: n in paths ==> paths[n] in told
  }

  /** Every path has been told something, no managed one to terminate, and the next number is a new one. */
  ghost predicate Numbered(paths: Paths, told: Told, closed: set<Handle>, created: nat) {
    && AllTold(paths, told)
    && (forall h :: h in told || h in closed ==> h.id < created)
    && (forall n :: n in paths ==> paths[n] !in closed)
  }

  lemma NumberedMore(paths: Paths, told: Told, closed: set<Handle>, created: nat, pa: Handle, conf: PathConf)
    requires Numbered(paths, told, closed, created) && pa.id == created && pa.name !in paths
    ensures Numbered(paths[pa.name := pa], told[pa := conf], closed, created + 1) && pa !in told
  {
  }

  ghost function TableOf(paths: Paths, told: Told): Table
    requires AllTold(paths, told)
  {
    map n | n in paths :: EntryOf(told, paths[n])
  }

  /** The paths whose configuration is still to be looked at, or survives. */
  function Left(ps: Paths, todo: set<string>, before: Confs, after: Confs): Paths {
    map n | n in ps && (ps[n].confName in todo || Survives(ps[n].confName, before, after)) :: ps[n]
  }

  /** The paths of `c` removed, but for those in `spared`. */
  function Except(ps: Paths, c: string, spared: set<Handle>): Paths {
    map n | n in ps && (ps[n].confName != c || ps[n] in spared) :: ps[n]
  }

  lemma ExceptOneMore(ps: Paths, c: string, spared: set<Handle>, pa: Handle)
    requires (forall n :: n in ps ==> ps[n].name == n) && pa in spared && Managed(ps, pa) && pa.confName == c
    ensures Except(ps, c, spared) - {pa.name} == Except(ps, c, spared - {pa})
  {
  }

  lemma ExceptNone(ps: Paths, index: Index, c: string)
    requires Indexed(ps, index)
    ensures Except(ps, c, Members(index, c)) == ps
  {
    forall n | n in ps
      ensures n in Except(ps, c, Members(index, c))
    {
      assert Managed(ps, ps[n]);
    }
  }

  function Spread(hs: set<Handle>, conf: PathConf): Told {
    map h | h in hs :: conf
  }

  lemma SpreadOneMore(told: Told, all: set<Handle>, todo: set<Handle>, pa: Handle, conf: PathConf)
    requires todo <= all && pa in todo
    ensures (told + Spread(all - todo, conf))[pa := conf] == told + Spread(all - (todo - {pa}), conf)
  {
    assert all - (todo - {pa}) == all - todo + {pa};
  }

  /** Every path has the configuration it should: the one before where it is still to be looked at, else the new one. */
  ghost predicate Informed(paths: Paths, told: Told, todo: set<string>, before: Confs, after: Confs) {
    forall n :: n in paths ==>
      && paths[n] in told
      && paths[n].confName in (if paths[n].confName in todo then before else after)
      && told[paths[n]] == (if paths[n].confName in todo then before else after)[paths[n].confName]
  }

  function Gone(ps: Paths, now: Paths): set<Handle> {
    set n | n in ps && n !in now :: ps[n]
  }

  /** One configuration looked at. */
  lemma LeftOneLess(ps: Paths, todo: set<string>, before: Confs, after: Confs, c: string)
    requires c in todo && c in before
    ensures
      var left := Left(ps, todo, before, after);
      Left(ps, todo - {c}, before, after) == if Survives(c, before, after) then left else Except(left, c, {})
  {
    hide Survives;
  }

  lemma LeftIsPart(ps: Paths, todo: set<string>, before: Confs, after: Confs)
    ensures
      var left := Left(ps, todo, before, after);
      forall n :: n in left ==> n in ps && ps[n] == left[n]
  {
  }

  lemma GoneOneMore(ps: Paths, now: Paths, index: Index, c: string)
    requires Indexed(now, index) && forall n :: n in now ==> n in ps && ps[n] == now[n]
    ensures Gone(ps, Except(now, c, {})) == Gone(ps, now) + Members(index, c)
  {
    var left := Except(now, c, {});
    forall h | h in Members(index, c)
      ensures h in Gone(ps, left)
    {
      assert Managed(now, h) && h.name in ps && h.name !in left;
    }
    forall h | h in Gone(ps, left) && h !in Gone(ps, now)
      ensures h in Members(index, c)
    {
      var n :| n in ps && n !in left && ps[n] == h;
      assert Managed(now, h);
    }
  }

  lemma InformedOneMore(was: Paths, told: Told, now: Paths, next: Told, todo: set<string>,
                        before: Confs, after: Confs, c: string)
    requires Informed(was, told, todo, before, after) && c in todo && c in before
    requires now == if Survives(c, before, after) then was else Except(was, c, {})
    requires told.Keys == next.Keys
    requires forall n :: n in now ==>
      && now[n] in next
      && next[now[n]] == if now[n].confName == c && c in after && after[c] != before[c] then after[c] else told[now[n]]
    ensures Informed(now, next, todo - {c}, before, after)
  {
    hide CanBeUpdated;
  }

  lemma NothingDone(paths: Paths, told: Told, before: Confs, after: Confs)
    requires AllTold(paths, told) && Consistent(Manager(before, TableOf(paths, told)))
    ensures paths == Left(paths, before.Keys, before, after) && Informed(paths, told, before.Keys, before, after)
    ensures Gone(paths, paths) == {}
  {
    var table := TableOf(paths, told);
    forall n | n in paths
      ensures paths[n].confName in before && told[paths[n]] == before[paths[n].confName]
    {
      assert table[n] == EntryOf(told, paths[n]);
    }
  }

  /** `now` is `kept` and a path of its own for every plain configuration without one, except those still to do. */
  ghost predicate Filled(kept: Paths, now: Paths, told: Told, confs: Confs, todo: set<string>) {
    && (forall n :: n in kept ==> n in now && now[n] == kept[n])
    && (forall n :: n in now <==> n in kept || (Plain(confs, n) && n !in todo))
    && (forall n :: n in now && n !in kept ==>
          now[n] in told && Plain(confs, n) && EntryOf(told, now[n]) == Entry(n, confs[n]))
  }

  /** Nothing that was told before is forgotten, and every added path has a new number. */
  ghost predicate Grown(ps: Paths, was: Told, from: nat, now: Paths, told: Told, created: nat) {
    && created >= from
    && (forall h :: h in was ==> h in told && told[h] == was[h])
    && (forall n :: n in now && n !in ps ==> now[n].id >= from)
  }

  lemma GrownMore(ps: Paths, was: Told, from: nat, now: Paths, told: Told, created: nat, pa: Handle, conf: PathConf)
    requires Grown(ps, was, from, now, told, created) && pa.id == created && pa !in told
    ensures Grown(ps, was, from, now[pa.name := pa], told[pa := conf], created + 1)
  {
  }

  lemma NothingFilled(paths: Paths, told: Told, created: nat, confs: Confs)
    ensures Filled(paths, paths, told, confs, confs.Keys) && Grown(paths, told, created, paths, told, created)
  {
  }

  lemma FilledSkip(kept: Paths, now: Paths, told: Told, confs: Confs, todo: set<string>, c: string)
    requires Filled(kept, now, told, confs, todo) && (c in now || !Plain(confs, c))
    ensures Filled(kept, now, told, confs, todo - {c})
  {
  }

  lemma FilledMore(kept: Paths, now: Paths, told: Told, confs: Confs, todo: set<string>, pa: Handle)
    requires Filled(kept, now, told, confs, todo) && pa.name !in now && Plain(confs, pa.name) && pa !in told
    requires pa.confName == pa.name
    ensures Filled(kept, now[pa.name := pa], told[pa := confs[pa.name]], confs, todo - {pa.name})
  {
  }

  /** Removing and updating, then filling up, is a reload of the table. */
  lemma FilledIsReloaded(ps: Paths, was: Told, kept: Paths, now: Paths, told: Told, before: Confs, after: Confs)
    requires AllTold(ps, was) && kept == Left(ps, {}, before, after)
    requires Informed(kept, told, {}, before, after) && Filled(kept, now, told, after, {})
    ensures AllTold(now, told) && TableOf(now, told) == Reloaded(TableOf(ps, was), before, after)
  {
    assert AllTold(now, told);
    var table, next := TableOf(ps, was), TableOf(now, told);
    forall n | n in now
      ensures n in Reloaded(table, before, after) && Reloaded(table, before, after)[n] == next[n]
    {
      FilledAt(ps, was, kept, now, told, before, after, n);
    }
    forall n | n in Reloaded(table, before, after)
      ensures n in now
    {
      if n in Kept(table, before, after) {
        assert n in ps && table[n].confName == ps[n].confName;
      }
    }
  }

  lemma FilledAt(ps: Paths, was: Told, kept: Paths, now: Paths, told: Told, before: Confs, after: Confs, n: string)
    requires AllTold(ps, was) && kept == Left(ps, {}, before, after) && n in now && now[n] in told
    requires Informed(kept, told, {}, before, after) && Filled(kept, now, told, after, {})
    ensures n in Reloaded(TableOf(ps, was), before, after)
    ensures Reloaded(TableOf(ps, was), before, after)[n] == EntryOf(told, now[n])
  {
    var table := TableOf(ps, was);
    if n in kept {
      assert table[n].confName == ps[n].confName;
      assert Kept(table, before, after)[n] == Given(after, ps[n].confName);
    } else if n in ps {
      assert table[n].confName == ps[n].confName;
      assert n !in Kept(table, before, after);
    } else {
      assert n !in table;
    }
  }

  lemma FilledFromNothing(now: Paths, told: Told, confs: Confs)
    requires WellNamed(confs) && Filled(map[], now, told, confs, {})
    ensures AllTold(now, told) && TableOf(now, told) == Initial(confs)
    ensures Consistent(Manager(confs, Initial(confs)))
  {
    hide PathConf.Sound;
    forall n | n in now
      ensures n in Initial(confs) && Initial(confs)[n] == EntryOf(told, now[n])
    {
    }
  }

  lemma Forget(confs: Confs, ps: Paths, told: Told, n: string)
    requires AllTold(ps, told) && Consistent(Manager(confs, TableOf(ps, told)))
    ensures AllTold(ps - {n}, told) && TableOf(ps - {n}, told) == TableOf(ps, told) - {n}
    ensures Consistent(Manager(confs, TableOf(ps - {n}, told)))
  {
    hide WellNamed;
    var table := TableOf(ps, told);
    assert TableOf(ps - {n}, told) == table - {n};
  }

  lemma Append(confs: Confs, matches: (string, string) -> bool, ps: Paths, told: Told, pa: Handle)
    requires AllTold(ps, told) && Consistent(Manager(confs, TableOf(ps, told))) && pa.name !in ps && pa !in told
    requires Finds(confs, matches, pa.name, pa.confName)
    ensures
      var more, next := ps[pa.name := pa], told[pa := confs[pa.confName]];
      var m := Next(Manager(confs, TableOf(ps, told)), Event.Request(pa.name, pa.confName));
      AllTold(more, next) && Manager(confs, TableOf(more, next)) == m && Consistent(m)
  {
    hide WellNamed, ValidPathName;
    var more, next := ps[pa.name := pa], told[pa := confs[pa.confName]];
    var m := Manager(confs, TableOf(ps, told));
    NextIsConsistent(m, matches, Event.Request(pa.name, pa.confName));
    assert TableOf(more, next) == m.table[pa.name := Given(confs, pa.confName)];
  }

  datatype Found = Found(confName: string, conf: PathConf) | InvalidName | NotConfigured

  datatype Answer = Path(path: Handle) | NoName | NoConf | NoAuth

  class PathManager {
    var pathConfs: Confs
    var paths: Paths
    var pathsByConf: Index
    var told: Told
    var closed: set<Handle>                  // the paths told to terminate
    var created: nat

    ghost function State(): Manager
      requires AllTold(paths, told)
      reads this
    {
      Manager(pathConfs, TableOf(paths, told))
    }

    ghost predicate Valid()
      reads this
    {
      Indexed(paths, pathsByConf) && Numbered(paths, told, closed, created) && Consistent(State())
    }

    constructor (confs: Confs)
      requires WellNamed(confs)
      ensures Valid() && State() == Manager(confs, Initial(confs))
    {
      pathConfs, paths, pathsByConf, told, closed, created := confs, map[], map[], map[], {}, 0;
      new;
      AddPlain();
      FilledFromNothing(paths, told, confs);
    }

    method CreatePath(confName: string, conf: PathConf, name: string)
      requires Indexed(paths, pathsByConf) && Numbered(paths, told, closed, created) && name !in paths
      modifies this`paths, this`pathsByConf, this`told, this`created
      ensures Indexed(paths, pathsByConf) && Numbered(paths, told, closed, created) && created == old(created) + 1
      ensures paths == old(paths)[name := Handle(old(created), name, confName)]
      ensures told == old(told)[Handle(old(created), name, confName) := conf]
    {
      var pa := Handle(created, name, confName);
      AddedIsIndexed(paths, pathsByConf, pa);
      NumberedMore(paths, told, closed, created, pa, conf);
      hide Indexed, Numbered;
      created := created + 1;
      told := told[pa := conf];
      paths := paths[name := pa];
      if confName !in pathsByConf {
        pathsByConf := pathsByConf[confName := {}];
      }
      pathsByConf := pathsByConf[confName := pathsByConf[confName] + {pa}];
      assert pathsByConf == Added(old(pathsByConf), pa);
    }

    method RemovePath(pa: Handle)
      requires Indexed(paths, pathsByConf) && Managed(paths, pa)
      modifies this`paths, this`pathsByConf
      ensures Indexed(paths, pathsByConf) && paths == old(paths) - {pa.name}
      ensures forall c :: Members(pathsByConf, c) == old(Members(pathsByConf, c)) - {pa}
    {
      assert pa in Members(pathsByConf, pa.confName);
      RemovedIsIndexed(paths, pathsByConf, pa);
      hide Indexed;
      pathsByConf := pathsByConf[pa.confName := pathsByConf[pa.confName] - {pa}];
      if pathsByConf[pa.confName] == {} {
        pathsByConf := pathsByConf - {pa.confName};
      }
      paths := paths - {pa.name};
      assert pathsByConf == Removed(old(pathsByConf), pa);
    }

    /** Creates a path for every plain configuration whose name has none. */
    method AddPlain()
      requires Indexed(paths, pathsByConf) && Numbered(paths, told, closed, created)
      modifies this`paths, this`pathsByConf, this`told, this`created
      ensures Indexed(paths, pathsByConf) && Numbered(paths, told, closed, created)
      ensures Filled(old(paths), paths, told, pathConfs, {})
      ensures Grown(old(paths), old(told), old(created), paths, told, created)
    {
      hide Indexed, Numbered, Filled, Grown;
      var todo := pathConfs.Keys;
      NothingFilled(paths, told, created, pathConfs);
      while todo != {}
        invariant todo <= pathConfs.Keys
        invariant Indexed(paths, pathsByConf) && Numbered(paths, told, closed, created)
        invariant Filled(old(paths), paths, told, pathConfs, todo)
        invariant Grown(old(paths), old(told), old(created), paths, told, created)
        decreases |todo|
      {
        var c :| c in todo;
        if c !in paths && pathConfs[c].regexp.None? {
          var pa := Handle(created, c, c);
          NumberedMore(paths, told, closed, created, pa, pathConfs[c]);
          FilledMore(old(paths), paths, told, pathConfs, todo, pa);
          GrownMore(old(paths), old(told), old(created), paths, told, created, pa, pathConfs[c]);
          CreatePath(c, pathConfs[c], c);
        } else {
          FilledSkip(old(paths), paths, told, pathConfs, todo, c);
        }
        todo := todo - {c};
      }
    }

    /** Removes and closes every path of a configuration. */
    method RemoveAll(c: string)
      requires Indexed(paths, pathsByConf)
      modifies this`paths, this`pathsByConf, this`closed
      ensures Indexed(paths, pathsByConf) && paths == Except(old(paths), c, {})
      ensures closed == old(closed) + old(Members(pathsByConf, c))
    {
      var todo := Members(pathsByConf, c);
      ExceptNone(paths, pathsByConf, c);
      while todo != {}
        invariant Indexed(paths, pathsByConf) && todo == Members(pathsByConf, c)
        invariant todo <= old(Members(pathsByConf, c))
        invariant paths == Except(old(paths), c, todo)
        invariant closed == old(closed) + (old(Members(pathsByConf, c)) - todo)
        decreases |todo|
      {
        var pa :| pa in todo;
        assert Managed(paths, pa) && pa.confName == c;
        ExceptOneMore(old(paths), c, todo, pa);
        RemovePath(pa);
        closed := closed + {pa};
        todo := todo - {pa};
      }
    }

    /** Hands a configuration to every path of its name. */
    method UpdateAll(c: string, conf: PathConf)
      modifies this`told
      ensures told == old(told) + Spread(Members(pathsByConf, c), conf)
    {
      var todo := Members(pathsByConf, c);
      while todo != {}
        invariant todo <= Members(pathsByConf, c)
        invariant told == old(told) + Spread(Members(pathsByConf, c) - todo, conf)
        decreases |todo|
      {
        var pa :| pa in todo;
        SpreadOneMore(old(told), Members(pathsByConf, c), todo, pa, conf);
        told := told[pa := conf];
        todo := todo - {pa};
      }
    }

    /** What a reload does with one configuration of before. */
    method Reconsider(c: string, newConfs: Confs)
      requires Indexed(paths, pathsByConf) && Numbered(paths, told, closed, created) && c in pathConfs
      modifies this`paths, this`pathsByConf, this`told, this`closed
      ensures Indexed(paths, pathsByConf) && Numbered(paths, told, closed, created)
      ensures paths == if Survives(c, pathConfs, newConfs) then old(paths) else Except(old(paths), c, {})
      ensures closed == old(closed) + if Survives(c, pathConfs, newConfs) then {} else old(Members(pathsByConf, c))
      ensures told.Keys == old(told).Keys
      ensures forall n :: n in paths ==>
        && paths[n] in told
        && told[paths[n]] ==
           (if paths[n].confName == c && c in newConfs && newConfs[c] != pathConfs[c] then newConfs[c]
            else old(told)[paths[n]])
    {
      hide PathConf.Sound, CanBeUpdated;
      if c in newConfs {
        if newConfs[c] != pathConfs[c] {
          if CanBeUpdated(pathConfs[c], newConfs[c]) {
            UpdateAll(c, newConfs[c]);
          } else {
            RemoveAll(c);
          }
        }
      } else {
        RemoveAll(c);
      }
    }

    /** The same within a reload that still has `todo` to look at. */
    method ReconsiderNext(c: string, newConfs: Confs, ghost ps: Paths, ghost todo: set<string>, ghost base: set<Handle>)
      requires Indexed(paths, pathsByConf) && Numbered(paths, told, closed, created) && c in pathConfs && c in todo
      requires paths == Left(ps, todo, pathConfs, newConfs) && Informed(paths, told, todo, pathConfs, newConfs)
      requires closed == base + Gone(ps, paths)
      modifies this`paths, this`pathsByConf, this`told, this`closed
      ensures Indexed(paths, pathsByConf) && Numbered(paths, told, closed, created)
      ensures paths == Left(ps, todo - {c}, pathConfs, newConfs)
      ensures Informed(paths, told, todo - {c}, pathConfs, newConfs)
      ensures closed == base + Gone(ps, paths)
    {
      LeftIsPart(ps, todo, pathConfs, newConfs);
      GoneOneMore(ps, paths, pathsByConf, c);
      hide Indexed, Numbered, Informed, Left, Survives, Except, Gone, Members;
      LeftOneLess(ps, todo, pathConfs, newConfs, c);
      ghost var was, before := paths, told;
      Reconsider(c, newConfs);
      InformedOneMore(was, before, paths, told, todo, pathConfs, newConfs, c);
    }

    /** The first half of a reload: every configuration of before is looked at, in any order. */
    method RetireAndUpdate(newConfs: Confs)
      requires Valid()
      modifies this`paths, this`pathsByConf, this`told, this`closed
      ensures Indexed(paths, pathsByConf) && Numbered(paths, told, closed, created)
      ensures paths == Left(old(paths), {}, pathConfs, newConfs)
      ensures Informed(paths, told, {}, pathConfs, newConfs)
      ensures closed == old(closed) + Gone(old(paths), paths)
    {
      assert AllTold(paths, told);
      hide Indexed, Numbered, Informed, Left, Survives, Except, Gone, Members, Consistent, TableOf, AllTold;
      var todo := pathConfs.Keys;
      NothingDone(paths, told, pathConfs, newConfs);
      while todo != {}
        invariant todo <= pathConfs.Keys
        invariant Indexed(paths, pathsByConf) && Numbered(paths, told, closed, created)
        invariant paths == Left(old(paths), todo, pathConfs, newConfs)
        invariant Informed(paths, told, todo, pathConfs, newConfs)
        invariant closed == old(closed) + Gone(old(paths), paths)
        decreases |todo|
      {
        var c :| c in todo;
        ReconsiderNext(c, newConfs, old(paths), todo, old(closed));
        todo := todo - {c};
      }
    }

    /**
     * A reload, whatever order the maps are walked in: the table becomes the one the reload of PathTable describes;
     * survivors stay the same objects, the others are told to terminate, and every path that is added is new.
     */
    method ReloadConf(newConfs: Confs)
      requires Valid() && WellNamed(newConfs)
      modifies this
      ensures Valid() && State() == Next(old(State()), Reload(newConfs))
      ensures forall n :: n in old(paths) ==>
        if Survives(old(paths)[n].confName, old(pathConfs), newConfs) then n in paths && paths[n] == old(paths)[n]
        else old(paths)[n] in closed && (n in paths ==> paths[n].id >= old(created))
      ensures forall n :: n in paths && n !in old(paths) ==> paths[n].id >= old(created)
      ensures forall n :: n in old(paths) ==>
        var c := old(paths)[n].confName;
        && c in old(pathConfs)
        && (n in paths && paths[n] == old(paths)[n] <==>
              c in newConfs && (newConfs[c] == old(pathConfs)[c] || OnlyLive(old(pathConfs)[c], newConfs[c])))
        && (n in paths && paths[n] == old(paths)[n] ==> paths[n] in told && told[paths[n]] == newConfs[c])
    {
      RetireAndUpdate(newConfs);
      ghost var kept := paths;
      pathConfs := newConfs;
      AddPlain();
      FilledIsReloaded(old(paths), old(told), kept, paths, told, old(pathConfs), newConfs);
      NextIsConsistent(old(State()), (_, _) => false, Reload(newConfs));
      KeptExactly(old(paths), old(told), old(closed), old(created), old(pathConfs), newConfs);
    }

    /** What became of each path, told from the two configurations. */
    lemma KeptExactly(was: Paths, knew: Told, ended: set<Handle>, number: nat, before: Confs, after: Confs)
      requires AllTold(was, knew) && AllTold(paths, told) && Numbered(was, knew, ended, number)
      requires Consistent(Manager(before, TableOf(was, knew))) && WellNamed(after)
      requires TableOf(paths, told) == Reloaded(TableOf(was, knew), before, after)
      requires forall n :: n in was ==>
        if Survives(was[n].confName, before, after) then n in paths && paths[n] == was[n]
        else was[n] in closed && (n in paths ==> paths[n].id >= number)
      ensures forall n :: n in was ==>
        var c := was[n].confName;
        && c in before
        && (n in paths && paths[n] == was[n] <==>
              c in after && (after[c] == before[c] || OnlyLive(before[c], after[c])))
        && (n in paths && paths[n] == was[n] ==> paths[n] in told && told[paths[n]] == after[c])
    {
      forall n | n in was
        ensures
          var c := was[n].confName;
          && c in before
          && (n in paths && paths[n] == was[n] <==>
                c in after && (after[c] == before[c] || OnlyLive(before[c], after[c])))
          && (n in paths && paths[n] == was[n] ==> paths[n] in told && told[paths[n]] == after[c])
      {
        var c := was[n].confName;
        assert n in TableOf(was, knew) && TableOf(was, knew)[n].confName == c;
        SurvivesIff(c, before, after);
        if n in paths && paths[n] == was[n] {
          assert TableOf(paths, told)[n] == Reloaded(TableOf(was, knew), before, after)[n];
        }
      }
    }

    /** A path has stopped: its entry goes, unless the name has meanwhile been given to another path. */
    method PathClosed(pa: Handle)
      requires Valid()
      modifies this`paths, this`pathsByConf
      ensures Valid()
      ensures
        if Managed(old(paths), pa) then State() == Next(old(State()), Ended(pa.name)) && paths == old(paths) - {pa.name}
        else paths == old(paths) && pathsByConf == old(pathsByConf)
    {
      if pa.name !in paths || paths[pa.name] != pa {
        return;
      }
      RemovePath(pa);
      Forget(pathConfs, old(paths), told, pa.name);
    }

    /** Finds the configuration of a name: its own, or any regular expression that matches it. */
    method FindPathConf(name: string, matches: (string, string) -> bool) returns (r: Found)
      ensures r.Found? ==> Finds(pathConfs, matches, name, r.confName) && r.conf == pathConfs[r.confName]
      ensures r.Found? && name in pathConfs ==> r.confName == name
      ensures r.Found? && name !in pathConfs ==> r.conf.regexp.Some? && matches(r.conf.regexp.value, name)
      ensures r.Found? <==>
        && ValidPathName(name)
        && (name in pathConfs || exists c :: ByExpression(pathConfs, matches, name, c))
      ensures r.InvalidName? <==> !ValidPathName(name)
      ensures r.NotConfigured? <==>
        ValidPathName(name) && forall c :: c in pathConfs ==> !Finds(pathConfs, matches, name, c)
    {
      if !ValidPathName(name) {
        return InvalidName;
      }
      if name in pathConfs {
        assert Finds(pathConfs, matches, name, name);
        return Found(name, pathConfs[name]);
      }
      var todo := pathConfs.Keys;
      while todo != {}
        invariant todo <= pathConfs.Keys
        invariant forall c :: c in pathConfs && c !in todo ==> !Finds(pathConfs, matches, name, c)
        decreases |todo|
      {
        var c :| c in todo;
        if pathConfs[c].regexp.Some? && matches(pathConfs[c].regexp.value, name) {
          assert Finds(pathConfs, matches, name, c) && ByExpression(pathConfs, matches, name, c);
          return Found(c, pathConfs[c]);
        }
        todo := todo - {c};
      }
      return NotConfigured;
    }

    /**
     * A describe, a reader or a publisher asks for a path; `authenticate` is the check of its credentials. `c` is the
     * configuration that was found, where one was.
     */
    method Request(name: string, matches: (string, string) -> bool, authenticate: PathConf -> bool)
      returns (r: Answer, c: string)
      requires Valid()
      modifies this`paths, this`pathsByConf, this`told, this`created
      ensures Valid()
      ensures r.NoName? <==> !ValidPathName(name)
      ensures r.NoConf? <==> ValidPathName(name) && forall c :: c in pathConfs ==> !Finds(pathConfs, matches, name, c)
      ensures r.NoAuth? || r.Path? ==> Finds(pathConfs, matches, name, c) && (r.Path? <==> authenticate(pathConfs[c]))
      ensures r.NoAuth? || r.Path? ==>
        if name in pathConfs then c == name else ByExpression(pathConfs, matches, name, c)
      ensures r.Path? ==>
        r.path == if name in old(paths) then old(paths)[name] else Handle(old(created), name, c)
      ensures r.Path? && name !in old(paths) ==> r.path in told && told[r.path] == pathConfs[c]
      ensures r.Path? ==>
        name in paths && r.path == paths[name] && State() == Next(old(State()), Event.Request(name, c))
      ensures !r.Path? || name in old(paths) ==>
        paths == old(paths) && pathsByConf == old(pathsByConf) && told == old(told)
    {
      assert AllTold(paths, told);
      hide Indexed, Numbered, ValidPathName;
      c := "";
      var found := FindPathConf(name, matches);
      match found
      case InvalidName => return NoName, c;
      case NotConfigured => return NoConf, c;
      case Found(confName, conf) =>
        c := confName;
        if !authenticate(conf) {
          return NoAuth, c;
        }
        if name !in paths {
          var pa := Handle(created, name, c);
          NumberedMore(paths, told, closed, created, pa, conf);
          Append(pathConfs, matches, paths, told, pa);
          CreatePath(c, conf, name);
        }
        r := Path(paths[name]);
    }
  }
}
