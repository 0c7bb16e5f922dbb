/** Queue directories as values, and what one uninterrupted step does to them. */
module Directories {
  import opened Options
  import opened Listener
  import opened OldData
  import opened Routing
  import opened UserTarget
  import opened Ordering
  import opened Names

  datatype Dir = Dir(files: map<string, Content>, trash: map<string, Content>)

  /** The in queue directory and the directories of the registered out queues. */
  datatype World = World(inbox: Dir, outs: map<string, Dir>)

  function Unlink(dir: Dir, name: string): Dir {
    dir.(files := dir.files - {name})
  }

  /** `discard_file`: the file goes to the trash; if the trash has a file of that name,
      moving fails and the file is deleted. */
  function Discard(dir: Dir, name: string): Dir {
    if name !in dir.files then dir
    else if name in dir.trash then Unlink(dir, name)
    else Dir(dir.files - {name}, dir.trash[name := dir.files[name]])
  }

  /** The directory after discarding some of its files, in any order. */
  ghost function DiscardedAll(dir: Dir, names: set<string>): Dir {
    Dir(dir.files - names, (map name | name in names && name in dir.files :: dir.files[name]) + dir.trash)
  }

  lemma DiscardOneMore(dir: Dir, names: set<string>, name: string)
    ensures Discard(DiscardedAll(dir, names), name) == DiscardedAll(dir, names + {name})
  {
    var one, all := Discard(DiscardedAll(dir, names), name), DiscardedAll(dir, names + {name});
    assert one.files == all.files;
    assert one.trash == all.trash;
  }

  ghost function NonJson(dir: Dir): set<string> {
    set name | name in dir.files && !IsJson(name)
  }

  lemma NothingToDiscard(dir: Dir)
    requires NonJson(dir) == {}
    ensures DiscardedAll(dir, NonJson(dir)) == dir
  {
    var all := DiscardedAll(dir, {});
    assert all.files == dir.files && all.trash == dir.trash;
  }

  /** `queue_files`: the sorted names of the JSON files; every other file is discarded. */
  method QueueFiles(before: Dir) returns (dir: Dir, names: seq<string>)
    ensures dir == DiscardedAll(before, NonJson(before))
    ensures names == SortedNames(dir.files.Keys)
  {
    dir := before;
    var res: set<string> := {};
    var entries := dir.files.Keys;
    ghost var bad := {};
    assert dir == DiscardedAll(before, {});
    while entries != {}
      invariant entries <= before.files.Keys
      invariant dir == DiscardedAll(before, bad)
      invariant forall name :: name in res <==> name in before.files && name !in entries && IsJson(name)
      invariant forall name :: name in bad <==> name in before.files && name !in entries && !IsJson(name)
      decreases entries
    {
      var name :| name in entries;
      entries := entries - {name};
      if !IsJson(name) {
        dir := Discard(dir, name);
        DiscardOneMore(before, bad, name);
        bad := bad + {name};
      } else {
        res := res + {name};
      }
    }
    assert bad == NonJson(before) && dir.files.Keys == res;
    names := SortNames(res);
  }

  // ---- in queue -----------------------------------------------------------

  ghost function NewFiles(dir: Dir): set<string> {
    set name | name in dir.files && !IsReady(name)
  }

  ghost function ReadyFiles(dir: Dir): set<string> {
    set name | name in dir.files && IsReady(name)
  }

  /** `preprocess_file`; `changed` says whether a hook changed the object so that the
      file is rewritten, which may fail.  The caller discards the file of a failure. */
  function PreprocessedDir(dir: Dir, db: Db, name: string, now: int, passwords: bool, saves: bool): Dir {
    if name !in dir.files then dir
    else match Load(dir.files[name])
    case None => Discard(dir, name)
    case Some(obj) =>
      var obj' := WithOld(db, obj, now);
      if !IsChanged(obj', passwords) then Renamed(dir, name, dir.files[name])
      else if saves then Renamed(dir, name, Json(obj'))
      else Discard(dir, name)
  }

  predicate IsChanged(obj: ListenerObject, passwords: bool) {
    !obj.Other? && (obj.previous.Some? || (obj.IsUserChange() && passwords))
  }

  function Renamed(dir: Dir, name: string, content: Content): Dir {
    dir.(files := (dir.files - {name})[ReadyName(name) := content])
  }

  function DbAfterFile(db: Db, content: Content, now: int): Db {
    match Load(content)
    case None => db
    case Some(obj) => DbAfter(db, obj, now)
  }

  /** The authorities that each file content is sent to: none if it cannot be loaded. */
  type Targets = Content -> iset<string>

  ghost function TargetsOf(cfg: RoutingConfig): Targets {
    (content: Content) => iset a | Load(content).Some? && IsTarget(cfg, Load(content).value, a)
  }

  function WithFile(dir: Dir, name: string, content: Content): Dir {
    dir.(files := dir.files[name := content])
  }

  ghost function CopiedTo(outs: map<string, Dir>, names: set<string>, name: string, content: Content): map<string, Dir> {
    map a | a in outs :: if a in names then WithFile(outs[a], name, content) else outs[a]
  }

  /** One iteration of `distribute`: the file is copied to the out queues of its targets
      and deleted, or discarded if it has no targets. */
  ghost function DistributeFile(targets: Targets, world: World, name: string): World {
    if name !in world.inbox.files then world
    else
      var content := world.inbox.files[name];
      if targets(content) == iset{} then world.(inbox := Discard(world.inbox, name))
      else World(Unlink(world.inbox, name),
                 CopiedTo(world.outs, (set a | a in world.outs && a in targets(content)), name, content))
  }

  predicate HasFile(files: map<string, Content>, name: string, content: Content) {
    name in files && files[name] == content
  }

  /** A copy of the file is left: in the out queue of a target, or in the trash if the file has
      no targets at all. */
  ghost predicate CopyIsLeft(targets: Targets, world: World, name: string, content: Content) {
    || (exists a :: a in world.outs && a in targets(content) && HasFile(world.outs[a].files, name, content))
    || (targets(content) == iset{} && HasFile(world.inbox.trash, name, content))
  }

  /** Exactly when distributing a file leaves a copy of it: if some target is registered, or if it
      has no targets at all and the trash does not hold another file of that name. */
  lemma CopyIsLeftIff(targets: Targets, world: World, name: string)
    requires name in world.inbox.files
    ensures var content, trash := world.inbox.files[name], world.inbox.trash;
      CopyIsLeft(targets, DistributeFile(targets, world, name), name, content) <==>
      || (exists a :: a in world.outs && a in targets(content))
      || (targets(content) == iset{} && (name in trash ==> trash[name] == content))
  {
    var content, after := world.inbox.files[name], DistributeFile(targets, world, name);
    if a :| a in world.outs && a in targets(content) {
      assert a in after.outs && HasFile(after.outs[a].files, name, content);
    }
  }

  /** A ready file that vanishes without any copy: its school is mapped to an authority that is
      not registered. */
  lemma UnknownTargetLosesFile()
    ensures var cfg := RoutingConfig(map["demo" := "gone"], [Authority("here", true, {KELVIN})]);
      var content := Json(AddMod("1", User(["DEMO"], "r", "s", map[]), None));
      var world := World(Dir(map["7" + READY := content], map[]), map["here" := Dir(map[], map[])]);
      var after := DistributeFile(TargetsOf(cfg), world, "7" + READY);
      && TargetsOf(cfg)(content) != iset{}
      && after.inbox == Dir(map[], map[]) && after.outs == world.outs
  {
    var cfg := RoutingConfig(map["demo" := "gone"], [Authority("here", true, {KELVIN})]);
    var obj := AddMod("1", User(["DEMO"], "r", "s", map[]), None);
    assert cfg.authorities[0] == Authority("here", true, {KELVIN});
    assert KelvinActive(cfg);
    assert "DEMO" in obj.data.schools && Lower("DEMO") == "demo" && MappedTo(cfg.mapping, "DEMO", "gone");
    assert IsUserTarget(cfg, obj, "gone");
    assert IsTarget(cfg, obj, "gone") && Load(Json(obj)) == Some(obj);
    assert "gone" in TargetsOf(cfg)(Json(obj));
    assert !IsTarget(cfg, obj, "here");
  }

  ghost function DistributeAll(targets: Targets, world: World, names: seq<string>): World {
    if names == [] then world
    else DistributeFile(targets, DistributeAll(targets, world, names[..|names| - 1]), names[|names| - 1])
  }

  // ---- out queue ----------------------------------------------------------

  datatype Ranked = Ranked(rank: int, name: string)

  /** The order of `paths.sort()` on (rank, path) pairs. */
  predicate Before(x: Ranked, y: Ranked) {
    x.rank < y.rank || (x.rank == y.rank && Less(x.name, y.name))
  }

  lemma BeforeIsStrictTotal()
    ensures StrictTotal(Before)
  {
    LessIsStrictTotal();
    forall x, y, z | Before(x, y) && Before(y, z) ensures Before(x, z) {}
    forall x, y | x != y ensures Before(x, y) || Before(y, x) {}
    forall x ensures !Before(x, x) {}
  }

  predicate Loadable(dir: Dir) {
    forall name :: name in dir.files ==> Load(dir.files[name]).Some?
  }

  function RankOf(content: Content): int {
    match Load(content)
    case None => 999
    case Some(obj) => obj.Rank()
  }

  /** The rank of each file. */
  function Ranks(dir: Dir): map<string, int> {
    map name | name in dir.files :: RankOf(dir.files[name])
  }

  function Pairs(ranks: map<string, int>): set<Ranked> {
    set name | name in ranks :: Ranked(ranks[name], name)
  }

  /** The directory and the target after `handle` and the `unlink` that follows it. */
  datatype Handled = Handled(dir: Dir, target: Target)

  ghost function HandleFile(state: Handled, env: Env, name: string, trouble: Trouble): Handled {
    if name !in state.dir.files then state
    else match Load(state.dir.files[name])
    case None => Handled(Discard(state.dir, name), state.target)
    case Some(obj) =>
      var result := Handle(state.target, env, obj, trouble);
      Handled(if result.outcome == Done then Unlink(state.dir, name) else Discard(state.dir, name), result.target)
  }

  /** Every file that is handled is gone, and nothing else is; a copy is in the trash
      exactly if it could not be loaded or handled, or was there before. */
  lemma HandleDisposes(state: Handled, env: Env, name: string, trouble: Trouble)
    requires name in state.dir.files
    ensures var dir := HandleFile(state, env, name, trouble).dir;
      var content := state.dir.files[name];
      var failed := Load(content) == None || Handle(state.target, env, Load(content).value, trouble).outcome != Done;
      && dir.files == state.dir.files - {name}
      && dir.trash == if failed && name !in state.dir.trash then state.dir.trash[name := content] else state.dir.trash
  {
  }
}
