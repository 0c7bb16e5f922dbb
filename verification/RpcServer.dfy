/** The RPC server on its objects: queues, their tasks, and the lists that hold them. */
module RpcServers {
  import opened Options
  import opened DeepMerge
  import opened DictUpdate
  import opened Names
  import opened Secrets
  import opened Configurations
  import opened Registries

  /** A background task. */
  class Task {
    var closed: bool
    ghost const owner: ManagedQueue

    constructor (ghost owner: ManagedQueue)
      ensures !closed && this.owner == owner
    {
      closed := false;
      this.owner := owner;
    }

    method Close()
      modifies this
      ensures closed
    {
      closed := true;
    }
  }

  class ManagedQueue {
    const name: string
    var authority: Config
    /** the dictionaries in memory that are the `plugin_configs` of the authority */
    var pluginConfigs: PyDict
    var task: Task?
    var deleted: bool
    /** all tasks ever started for this queue */
    ghost var spawned: set<Task>

    /** At most one task has not ended, and that is the current one. */
    ghost predicate Valid()
      reads this, spawned
    {
      && !deleted && authority.name == name
      && (task != null ==> task in spawned)
      && forall t :: t in spawned ==> t.owner == this && (t != task ==> t.closed)
    }

    /** The queue was deleted, and none of its tasks is running. */
    ghost predicate Ended()
      reads this, spawned
    {
      && deleted && (task != null ==> task in spawned)
      && forall t :: t in spawned ==> t.owner == this && t.closed
    }

    ghost predicate HoldsConfigs()
      reads this`authority, this`pluginConfigs, pluginConfigs, pluginConfigs.repr
    {
      pluginConfigs.Value() == Some(authority.configs)
    }

    predicate Live()
      reads this, task
    {
      task != null && !task.closed
    }

    /** `from_school_authority` */
    constructor (authority: Config)
      requires authority.configs.Dict?
      ensures name == authority.name && this.authority == authority
      ensures Valid() && task == null && spawned == {}
      ensures HoldsConfigs() && fresh(pluginConfigs.repr) && pluginConfigs in pluginConfigs.repr
    {
      var configs := FromJson(authority.configs);
      assert configs in configs.repr;
      this.name := authority.name;
      this.authority := authority;
      this.pluginConfigs := configs;
      this.task := null;
      this.deleted := false;
      this.spawned := {};
    }

    /** Earlier tasks go on running if they have not ended. */
    method StartTask()
      requires Valid()
      modifies this`task, this`spawned
      ensures task != null && fresh(task) && Live() && spawned == old(spawned) + {task}
      ensures !old(Live()) ==> Valid()
    {
      task := new Task(this);
      spawned := spawned + {task};
    }

    method StopTask()
      requires Valid()
      modifies spawned
      ensures Valid() && !Live()
      ensures forall t :: t in spawned ==> t.closed
    {
      if task != null && !task.closed {
        task.Close();
      }
    }

    /** Moving the directory away. */
    method DeleteQueue()
      requires Valid()
      modifies this`deleted, spawned
      ensures Ended()
    {
      if task != null && !task.closed {
        StopTask();
      }
      deleted := true;
    }

    /** `stop_task` and `delete_queue` */
    method End()
      requires Valid()
      modifies this`deleted, spawned
      ensures Ended()
    {
      StopTask();
      DeleteQueue();
    }
  }

  /** A Python list, which several objects may refer to. */
  class QueueList {
    var items: seq<ManagedQueue>

    constructor (items: seq<ManagedQueue>)
      ensures this.items == items
    {
      this.items := items;
    }

    /** `append` and `sort` by name */
    method AppendAndSort(queue: ManagedQueue)
      requires SortedByName(items) && forall q :: q in items ==> q.name != queue.name
      modifies this
      ensures SortedByName(items) && forall q :: q in items <==> q == queue || q in old(items)
    {
      var i := |items|;
      items := items + [queue];
      assert items[..i] + items[i + 1..] == old(items);
      while 0 < i && Less(queue.name, items[i - 1].name)
        invariant 0 <= i < |items| == |old(items)| + 1 && items[i] == queue
        invariant items[..i] + items[i + 1..] == old(items)
        invariant forall j :: i < j < |items| ==> Less(queue.name, items[j].name)
      {
        MovedDown(items, i, queue);
        items := items[i := items[i - 1]][i - 1 := queue];
        i := i - 1;
      }
      InsertedIsSorted(old(items), queue, i, items);
    }

    /** `remove`; the queue is in the list. */
    method Remove(queue: ManagedQueue)
      requires SortedByName(items) && queue in items
      modifies this
      ensures SortedByName(items) && forall q :: q in items <==> q != queue && q in old(items)
    {
      var i := 0;
      while items[i] != queue
        invariant 0 <= i < |items|
        invariant queue !in items[..i]
        decreases |items| - i
      {
        i := i + 1;
        assert exists j :: 0 <= j < |items| && items[j] == queue;
        assert queue in items[..i] || queue in items[i..];
      }
      items := items[..i] + items[i + 1..];
      RemovedIsSorted(old(items), i);
    }
  }

  /** SortedByName by name, and no name occurs twice. */
  ghost predicate SortedByName(items: seq<ManagedQueue>) {
    forall i, j :: 0 <= i < j < |items| ==> Less(items[i].name, items[j].name)
  }

  /** Moving a queue down one place keeps the others in order. */
  lemma MovedDown(items: seq<ManagedQueue>, i: nat, queue: ManagedQueue)
    requires 0 < i < |items|
    ensures var moved := items[i := items[i - 1]][i - 1 := queue];
      |moved| == |items| && moved[..i - 1] + moved[i..] == items[..i] + items[i + 1..]
  {
    var moved := items[i := items[i - 1]][i - 1 := queue];
    assert moved[i..] == [items[i - 1]] + items[i + 1..];
    assert items[..i] == items[..i - 1] + [items[i - 1]];
  }

  lemma InsertedIsSorted(before: seq<ManagedQueue>, queue: ManagedQueue, i: nat, after: seq<ManagedQueue>)
    requires SortedByName(before) && i <= |before| && after == before[..i] + [queue] + before[i..]
    requires i > 0 ==> !Less(queue.name, before[i - 1].name)
    requires forall j :: i <= j < |before| ==> Less(queue.name, before[j].name)
    requires forall q :: q in before ==> q.name != queue.name
    ensures SortedByName(after) && forall q :: q in after <==> q == queue || q in before
  {
    forall j | 0 <= j < i ensures Less(before[j].name, queue.name) {
      LessTotal(before[i - 1].name, queue.name);
      if j < i - 1 {
        LessTransitive(before[j].name, before[i - 1].name, queue.name);
      }
    }
  }

  /** The names of the queues from index `i` on. */
  function NamesFrom(items: seq<ManagedQueue>, i: nat): set<string> {
    set j | i <= j < |items| :: items[j].name
  }

  lemma NamesFromNext(items: seq<ManagedQueue>, i: nat)
    requires SortedByName(items) && i < |items|
    ensures items[i].name in NamesFrom(items, i)
    ensures NamesFrom(items, i + 1) == NamesFrom(items, i) - {items[i].name}
  {
    LessIrreflexive(items[i].name);
  }

  lemma RemovedIsSorted(before: seq<ManagedQueue>, i: nat)
    requires SortedByName(before) && i < |before|
    ensures SortedByName(before[..i] + before[i + 1..])
    ensures forall q :: q in before[..i] + before[i + 1..] <==> q != before[i] && q in before
  {
    forall j | 0 <= j < |before| && j != i ensures before[j] != before[i] {
      LessIrreflexive(before[i].name);
    }
    RemovedHolds(before, i);
  }

  lemma RemovedHolds(before: seq<ManagedQueue>, i: nat)
    requires i < |before| && forall j :: 0 <= j < |before| && j != i ==> before[j] != before[i]
    ensures forall q :: q in before[..i] + before[i + 1..] <==> q != before[i] && q in before
  {
    assert before == before[..i] + [before[i]] + before[i + 1..];
    var rest := before[i + 1..];
    forall j | 0 <= j < |rest| ensures rest[j] != before[i] {
      assert rest[j] == before[i + 1 + j];
    }
  }

  class ManagedInQueue {
    var outQueues: QueueList

    /** `out_queues or []`: an empty list is replaced by another one. */
    constructor (outQueues: QueueList)
      ensures outQueues.items != [] ==> this.outQueues == outQueues
      ensures outQueues.items == [] ==> fresh(this.outQueues) && this.outQueues.items == []
    {
      if outQueues.items == [] {
        this.outQueues := new QueueList([]);
      } else {
        this.outQueues := outQueues;
      }
    }
  }

  /** A queue that was made of its configuration, without a task. */
  ghost predicate IsNew(queue: ManagedQueue, name: string)
    reads queue
  {
    && queue.name == name == queue.authority.name && !queue.deleted
    && queue.task == null && queue.spawned == {}
  }

  /** New queues under their names, with their configurations in memory. */
  ghost predicate AreNew(named: map<string, ManagedQueue>, trees: set<PyDict>)
    reads named.Values, trees
  {
    forall name :: name in named ==>
      && IsNew(named[name], name)
      && named[name].pluginConfigs in trees && named[name].pluginConfigs.repr <= trees && named[name].HoldsConfigs()
  }

  /** The configurations of such queues. */
  ghost function NewConfigs(named: map<string, ManagedQueue>, trees: set<PyDict>): Option<map<string, Config>>
    reads named.Values, trees
  {
    if AreNew(named, trees) then Some(map name | name in named :: named[name].authority) else None
  }

  /** The list holds exactly these queues, sorted. */
  ghost predicate Lists(list: QueueList, named: map<string, ManagedQueue>)
    reads list
  {
    && SortedByName(list.items)
    && (forall q :: q in list.items ==> q.name in named && named[q.name] == q)
    && (forall name :: name in named ==> named[name] in list.items)
  }

  lemma OneMoreNew(named: map<string, ManagedQueue>, trees: set<PyDict>, queue: ManagedQueue)
    requires NewConfigs(named, trees).Some? && queue.name !in named
    requires IsNew(queue, queue.name) && queue.HoldsConfigs() && queue.pluginConfigs in queue.pluginConfigs.repr
    ensures NewConfigs(named[queue.name := queue], trees + queue.pluginConfigs.repr) ==
            Some(NewConfigs(named, trees).value[queue.name := queue.authority])
  {
    var after, grown := named[queue.name := queue], trees + queue.pluginConfigs.repr;
    assert AreNew(after, grown);
    assert NewConfigs(after, grown).value == NewConfigs(named, trees).value[queue.name := queue.authority];
  }

  /** The configurations of those authorities whose files have been read. */
  ghost function Part(configs: map<string, Config>, homes: map<string, string>, todo: set<string>): map<string, Config> {
    map name | name in configs && name in homes && homes[name] !in todo :: configs[name]
  }

  predicate AreDicts(configs: map<string, Config>) {
    forall name :: name in configs ==> configs[name].configs.Dict?
  }

  function NoneStarted(configs: map<string, Config>): map<string, Entry> {
    map name | name in configs :: Entry(configs[name], false)
  }

  class RpcServer {
    const rules: Rules
    const inQueue: ManagedInQueue
    const outQueues: QueueList
    /** the configuration directory */
    var files: map<string, Json>
    /** the handlers that the plugins keep, by authority and plugin */
    var handlers: set<(string, string)>
    /** the registered queues */
    ghost var byName: map<string, ManagedQueue>
    /** the queues that were deleted */
    ghost var retired: set<ManagedQueue>
    ghost var repr: set<object>

    ghost predicate Valid()
      reads this`byName, this`retired, this`repr, repr
    {
      && this !in repr && {inQueue, outQueues} <= repr && inQueue.outQueues in repr
      && ListsAgree()
      && (forall name {:trigger QueueAt(name)} :: name in byName ==> QueueAt(name))
      && (forall name {:trigger TreeAt(name)} :: name in byName ==> TreeAt(name))
      && (forall q {:trigger RetiredAt(q)} :: q in retired ==> RetiredAt(q))
    }

    /** The configuration of the queue is in memory. */
    ghost predicate TreeAt(name: string)
      requires name in byName
      reads this`byName, this`repr, repr
    {
      var q := byName[name];
      q in repr && q.pluginConfigs in repr && q.pluginConfigs.repr <= repr && q.HoldsConfigs()
    }

    ghost predicate RetiredAt(q: ManagedQueue)
      reads this`repr, repr
    {
      q in repr && q.spawned <= repr && q.Ended()
    }

    /** The in queue distributes to exactly the queues that the server knows. */
    ghost predicate ListsAgree()
      reads this`byName, inQueue, inQueue.outQueues, outQueues
    {
      && SortedByName(outQueues.items)
      && (inQueue.outQueues == outQueues || inQueue.outQueues.items == outQueues.items == [])
      && (forall q :: q in outQueues.items ==> q.name in byName && byName[q.name] == q)
    }

    ghost predicate QueueAt(name: string)
      requires name in byName && outQueues in repr
      reads this`byName, this`repr, repr
    {
      var q := byName[name];
      && q in repr && q.spawned <= repr && q in outQueues.items
      && q.name == name && q.Valid() && (q.Live() ==> q.authority.active)
      && WellFormed(rules.isUrl, q.authority)
    }

    /** The start of the service: one queue for each configuration file, and a task for each
        active authority. */
    constructor (rules: Rules, files: map<string, Json>)
      requires CanStart(rules, files)
      ensures Valid() && fresh(repr) && this.rules == rules && retired == {}
      ensures Value() == Started(rules, files)
    {
      var list, named, trees := LoadAll(rules, files);
      this.rules := rules;
      this.files := files;
      this.handlers := {};
      this.outQueues := list;
      this.inQueue := new ManagedInQueue(list);
      this.byName := named;
      this.retired := {};
      new;
      Begin(Configs(rules, files), trees);
    }

    static method LoadAll(rules: Rules, files: map<string, Json>)
      returns (list: QueueList, ghost named: map<string, ManagedQueue>, ghost trees: set<PyDict>)
      requires CanStart(rules, files)
      ensures fresh(list) && fresh(named.Values) && fresh(trees)
      ensures Lists(list, named) && NewConfigs(named, trees) == Some(Configs(rules, files))
      ensures AllWellFormed(rules, Configs(rules, files))
    {
      ConfigsAreLoaded(rules, files);
      list, named, trees := LoadQueues(rules, files, Configs(rules, files), Homes(rules, files));
    }

    method Begin(ghost configs: map<string, Config>, ghost trees: set<PyDict>)
      requires Lists(outQueues, byName) && NewConfigs(byName, trees) == Some(configs) && AllWellFormed(rules, configs)
      requires inQueue.outQueues == outQueues || inQueue.outQueues.items == outQueues.items == []
      requires retired == {}
      modifies this`repr, byName.Values
      ensures Valid() && Value() == AllStarted(configs, files) && retired == {}
      ensures fresh(repr - old({inQueue, inQueue.outQueues, outQueues} + byName.Values + trees))
    {
      repr := {inQueue, inQueue.outQueues, outQueues} + byName.Values + trees;
      Assembled(configs, trees);
      ValueIs(Registry(NoneStarted(configs), files));
      NoneStartedYet(NoneStarted(configs));
      StartAll(NoneStarted(configs));
      ValueIsStarted(configs);
    }

    lemma ValueIsStarted(configs: map<string, Config>)
      requires Valid() && StartedBut(NoneStarted(configs), {})
      ensures Value() == AllStarted(configs, files)
    {
      assert forall name :: name in byName ==> QueueAt(name);
      ValueIs(AllStarted(configs, files));
    }

    lemma Assembled(configs: map<string, Config>, trees: set<PyDict>)
      requires repr == {inQueue, inQueue.outQueues, outQueues} + byName.Values + trees
      requires Lists(outQueues, byName) && NewConfigs(byName, trees) == Some(configs) && AllWellFormed(rules, configs)
      requires inQueue.outQueues == outQueues || inQueue.outQueues.items == outQueues.items == []
      requires retired == {}
      ensures Valid() && byName.Keys == configs.Keys
      ensures forall name :: name in byName ==> EntryAt(name) == Entry(configs[name], false)
    {
      forall name | name in byName
        ensures QueueAt(name) && TreeAt(name) && EntryAt(name) == Entry(configs[name], false)
      {
        assert byName[name].authority == configs[name] && WellFormed(rules.isUrl, configs[name]);
        NewIsAssembled(name);
      }
    }

    lemma NewIsAssembled(name: string)
      requires outQueues in repr && name in byName && byName[name] in repr && byName[name] in outQueues.items
      requires var q := byName[name];
        && IsNew(q, name) && q.HoldsConfigs() && WellFormed(rules.isUrl, q.authority)
        && q.pluginConfigs in repr && q.pluginConfigs.repr <= repr
      ensures QueueAt(name) && TreeAt(name) && EntryAt(name) == Entry(byName[name].authority, false)
    {
    }

    static method LoadQueues(rules: Rules, files: map<string, Json>, ghost configs: map<string, Config>,
            ghost homes: map<string, string>)
      returns (list: QueueList, ghost named: map<string, ManagedQueue>, ghost trees: set<PyDict>)
      requires AreLoaded(rules, files, configs, homes) && AreDicts(configs)
      ensures fresh(list) && fresh(named.Values) && fresh(trees)
      ensures Lists(list, named) && NewConfigs(named, trees) == Some(configs)
    {
      list := new QueueList([]);
      named := map[];
      trees := {};
      var todo := files.Keys;
      assert Part(configs, homes, todo) == map[];
      while todo != {}
        invariant fresh(list) && fresh(named.Values) && fresh(trees) && todo <= files.Keys
        invariant Lists(list, named) && NewConfigs(named, trees) == Some(Part(configs, homes, todo))
        decreases todo
      {
        var file :| file in todo;
        named, trees := LoadFile(rules, file, files[file], list, named, trees, configs, homes, todo);
        todo := todo - {file};
      }
      assert Part(configs, homes, todo) == configs;
    }

    static method LoadFile(rules: Rules, ghost file: string, content: Json, list: QueueList,
        ghost named: map<string, ManagedQueue>, ghost trees: set<PyDict>,
        ghost configs: map<string, Config>, ghost homes: map<string, string>, ghost todo: set<string>)
      returns (ghost after: map<string, ManagedQueue>, ghost grown: set<PyDict>)
      requires IsLoaded(rules, file, content, configs, homes) && AreDicts(configs) && homes.Keys == configs.Keys && file in todo
      requires Lists(list, named) && NewConfigs(named, trees) == Some(Part(configs, homes, todo))
      modifies list
      ensures fresh(grown - trees) && fresh(after.Values - named.Values) && Lists(list, after)
      ensures NewConfigs(after, grown) == Some(Part(configs, homes, todo - {file}))
    {
      FileIsRead(rules, file, content, configs, homes, todo);
      after, grown := LoadQueue(Parse(rules.isUrl, content).value, list, named, trees);
    }

    static lemma FileIsRead(rules: Rules, file: string, content: Json, configs: map<string, Config>,
            homes: map<string, string>, todo: set<string>)
      requires IsLoaded(rules, file, content, configs, homes) && AreDicts(configs) && homes.Keys == configs.Keys && file in todo
      ensures Parse(rules.isUrl, content).Some?
      ensures var authority := Parse(rules.isUrl, content).value;
        && authority.name !in Part(configs, homes, todo) && authority.configs.Dict?
        && Part(configs, homes, todo - {file}) == Part(configs, homes, todo)[authority.name := authority]
    {
    }

    static method LoadQueue(authority: Config, list: QueueList, ghost named: map<string, ManagedQueue>,
            ghost trees: set<PyDict>)
      returns (ghost after: map<string, ManagedQueue>, ghost grown: set<PyDict>)
      requires Lists(list, named) && NewConfigs(named, trees).Some? && authority.name !in named && authority.configs.Dict?
      modifies list
      ensures fresh(grown - trees) && fresh(after.Values - named.Values) && Lists(list, after)
      ensures NewConfigs(after, grown) == Some(old(NewConfigs(named, trees)).value[authority.name := authority])
    {
      ghost var before := NewConfigs(named, trees);
      var queue := new ManagedQueue(authority);
      list.AppendAndSort(queue);
      after := named[queue.name := queue];
      grown := trees + queue.pluginConfigs.repr;
      assert NewConfigs(named, trees) == before;
      OneMoreNew(named, trees, queue);
    }

    method StartAll(ghost before: map<string, Entry>)
      requires Valid() && StartedBut(before, NamesFrom(outQueues.items, 0))
      modifies this`repr, byName.Values
      ensures Valid() && fresh(repr - old(repr)) && files == old(files) && byName == old(byName) && retired == old(retired)
      ensures StartedBut(before, {})
    {
      for i := 0 to |outQueues.items|
        invariant Valid() && fresh(repr - old(repr)) && files == old(files) && byName == old(byName) && retired == old(retired)
        invariant StartedBut(before, NamesFrom(outQueues.items, i))
      {
        assert outQueues.items[i] in outQueues.items;
        NamesFromNext(outQueues.items, i);
        StartNext(outQueues.items[i], before, NamesFrom(outQueues.items, i));
      }
    }

    lemma NoneStartedYet(before: map<string, Entry>)
      requires Valid() && Value().queues == before && forall name :: name in before ==> !before[name].live
      ensures StartedBut(before, NamesFrom(outQueues.items, 0))
    {
      assert forall name :: name in byName ==> QueueAt(name);
    }

    ghost predicate StartedBut(before: map<string, Entry>, todo: set<string>)
      requires Valid()
      reads this, repr
    {
      byName.Keys == before.Keys &&
      forall name :: name in byName ==>
        assert QueueAt(name); EntryAt(name) == Entry(before[name].config, name !in todo && before[name].config.active)
    }

    method StartNext(queue: ManagedQueue, ghost before: map<string, Entry>, ghost todo: set<string>)
      requires Valid() && StartedBut(before, todo)
      requires queue.name in byName && byName[queue.name] == queue && queue.name in todo
      modifies this`repr, queue`task, queue`spawned
      ensures Valid() && fresh(repr - old(repr)) && files == old(files) && byName == old(byName) && retired == old(retired)
      ensures StartedBut(before, todo - {queue.name})
    {
      assert QueueAt(queue.name);
      assert EntryAt(queue.name) == Entry(before[queue.name].config, false);
      StartOutQueueTask(queue);
    }

    /** The registry that the objects stand for. */
    ghost function Value(): (r: Registry)
      requires Valid()
      reads this, repr
      ensures Sound(rules, r)
    {
      var r := Registry(map name | name in byName :: (assert QueueAt(name); EntryAt(name)), files);
      assert Sound(rules, r) by {
        forall name | name in r.queues ensures SoundAt(rules, r, name) {
          assert QueueAt(name);
        }
      }
      r
    }

    ghost function EntryAt(name: string): Entry
      requires name in byName
      reads this`byName, byName[name], byName[name].task
    {
      Entry(byName[name].authority, byName[name].Live())
    }

    method Find(name: string) returns (queue: ManagedQueue?)
      requires Valid()
      ensures queue == null <==> name !in byName
      ensures queue != null ==> byName[name] == queue
    {
      assert name in byName ==> QueueAt(name);
      for i := 0 to |outQueues.items|
        invariant forall j :: 0 <= j < i ==> outQueues.items[j].name != name
      {
        if outQueues.items[i].name == name {
          assert outQueues.items[i] in outQueues.items;
          return outQueues.items[i];
        }
      }
      queue := null;
    }

    /** Nothing changes but the entry of one authority. */
    twostate predicate OnlyEntry(name: string, entry: Entry)
      requires old(Valid()) && Valid()
      reads this, repr
    {
      && byName == old(byName) && files == old(files)
      && forall n :: n in byName ==>
           assert QueueAt(n); EntryAt(n) == if n == name then entry else old(EntryAt(n))
    }

    /** The value of the registry, entry by entry. */
    lemma ValueIs(expected: Registry)
      requires Valid() && expected.files == files && expected.queues.Keys == byName.Keys
      requires forall name :: name in byName ==> EntryAt(name) == expected.queues[name]
      ensures Value() == expected
    {
      assert forall name :: name in byName ==> QueueAt(name);
      assert Value().queues == expected.queues;
    }

    /** A queue that is not touched stays as it is, whatever else changes. */
    twostate lemma KeepsQueue(name: string)
      requires name in old(byName) && name in byName && byName[name] == old(byName[name])
      requires outQueues in old(repr) && old(repr) <= repr && old(QueueAt(name)) && old(TreeAt(name))
      requires byName[name] in outQueues.items
      requires unchanged(byName[name]) && unchanged(old(byName[name].spawned))
      requires unchanged(old(byName[name].pluginConfigs)) && unchanged(old(byName[name].pluginConfigs.repr))
      ensures QueueAt(name) && TreeAt(name) && EntryAt(name) == old(EntryAt(name))
    {
    }

    /** Only the lists are touched. */
    twostate lemma KeepsListed()
      requires old(Valid()) && old(repr) <= repr && retired == old(retired)
      requires unchanged(old(repr) - {inQueue, outQueues})
      ensures outQueues in repr
      ensures forall name ::
        name in byName && name in old(byName) && byName[name] == old(byName[name]) && byName[name] in outQueues.items ==>
        QueueAt(name) && TreeAt(name) && EntryAt(name) == old(EntryAt(name))
      ensures forall q :: q in retired ==> RetiredAt(q)
    {
      forall name |
        name in byName && name in old(byName) && byName[name] == old(byName[name]) && byName[name] in outQueues.items
        ensures QueueAt(name) && TreeAt(name) && EntryAt(name) == old(EntryAt(name))
      {
        assert old(QueueAt(name)) && old(TreeAt(name));
        KeepsQueue(name);
      }
      forall q | q in retired ensures RetiredAt(q) {
        assert old(RetiredAt(q));
        KeepsRetired(q);
      }
    }

    twostate lemma KeepsRetired(q: ManagedQueue)
      requires old(repr) <= repr && old(RetiredAt(q)) && unchanged(q) && unchanged(old(q.spawned))
      ensures RetiredAt(q)
    {
    }

    method StartOutQueueTask(queue: ManagedQueue)
      requires Valid() && queue.name in byName && byName[queue.name] == queue && !queue.Live()
      modifies this`repr, queue`task, queue`spawned
      ensures Valid() && fresh(repr - old(repr)) && retired == old(retired)
      ensures OnlyEntry(queue.name, Entry(old(queue.authority), old(queue.authority).active))
      ensures old(queue.spawned) <= queue.spawned
    {
      assert old(QueueAt(queue.name)) && old(TreeAt(queue.name));
      if queue.authority.active {
        queue.StartTask();
        repr := repr + queue.spawned;
      }
      assert QueueAt(queue.name) && TreeAt(queue.name);
      forall n | n in byName && n != queue.name
        ensures QueueAt(n) && TreeAt(n) && EntryAt(n) == old(EntryAt(n))
      {
        assert old(QueueAt(n)) && old(TreeAt(n));
        KeepsQueue(n);
      }
      forall q | q in retired ensures RetiredAt(q) {
        assert old(RetiredAt(q));
        KeepsRetired(q);
      }
      assert EntryAt(queue.name) == Entry(old(queue.authority), old(queue.authority).active);
    }

    method StopQueue(queue: ManagedQueue)
      requires Valid() && queue.name in byName && byName[queue.name] == queue
      modifies queue.spawned
      ensures Valid() && !queue.Live()
      ensures OnlyEntry(queue.name, Entry(queue.authority, false))
      ensures forall t: Task | old(allocated(t)) :: old(t.closed) ==> t.closed
      ensures forall q: ManagedQueue | old(allocated(q)) :: old(q.spawned) <= q.spawned
    {
      assert old(QueueAt(queue.name)) && old(TreeAt(queue.name));
      queue.StopTask();
      assert QueueAt(queue.name) && TreeAt(queue.name);
      forall n | n in byName && n != queue.name
        ensures QueueAt(n) && TreeAt(n) && EntryAt(n) == old(EntryAt(n))
      {
        assert old(QueueAt(n)) && old(TreeAt(n));
        KeepsQueue(n);
      }
      forall q | q in retired ensures RetiredAt(q) {
        assert old(RetiredAt(q));
        KeepsRetired(q);
      }
    }

    method SetAuthority(queue: ManagedQueue, authority: Config)
      requires Valid() && queue.name in byName && byName[queue.name] == queue && !queue.Live()
      requires authority.name == queue.name && WellFormed(rules.isUrl, authority)
      modifies this`repr, queue`authority, queue`pluginConfigs
      ensures Valid() && queue.authority == authority && !queue.Live() && fresh(repr - old(repr))
      ensures OnlyEntry(queue.name, Entry(authority, false))
    {
      var configs := FromJson(authority.configs);
      assert configs in configs.repr && configs.Value() == Some(authority.configs);
      assert old(QueueAt(queue.name)) && old(TreeAt(queue.name));
      queue.authority, queue.pluginConfigs := authority, configs;
      repr := repr + configs.repr;
      assert QueueAt(queue.name) && TreeAt(queue.name);
      forall n | n in byName && n != queue.name
        ensures QueueAt(n) && TreeAt(n) && EntryAt(n) == old(EntryAt(n))
      {
        assert old(QueueAt(n)) && old(TreeAt(n));
        KeepsQueue(n);
      }
      forall q | q in retired ensures RetiredAt(q) {
        assert old(RetiredAt(q));
        KeepsRetired(q);
      }
    }

    /** The handlers of an authority are dropped; at the first plugin that is not loaded this
        raises, and later ones keep theirs. */
    method DropHandlers(name: string, plugins: seq<string>) returns (raised: bool)
      requires Valid()
      modifies this`handlers
      ensures Valid()
      ensures raised <==> !AllKnown(rules, plugins)
      ensures handlers == old(handlers) - (set plugin | plugin in plugins[..KnownPrefix(rules, plugins)] :: (name, plugin))
    {
      raised := false;
      for i := 0 to |plugins|
        invariant !raised && forall j :: 0 <= j < i ==> plugins[j] in rules.plugins
        invariant handlers == old(handlers) - (set plugin | plugin in plugins[..i] :: (name, plugin))
      {
        if plugins[i] !in rules.plugins {
          raised := true;
          KnownPrefixIs(rules, plugins, i);
          break;
        }
        assert plugins[..i + 1] == plugins[..i] + [plugins[i]];
        handlers := handlers - {(name, plugins[i])};
      }
      if !raised {
        KnownPrefixIs(rules, plugins, |plugins|);
      }
    }

    /** The file gets the secrets in plain text, the configuration in memory keeps them. */
    method Save(queue: ManagedQueue)
      requires Valid() && queue.name in byName && byName[queue.name] == queue
      modifies this`files
      ensures Valid() && IsPluginConfigs(queue.authority.configs)
      ensures files == old(files)[FileName(queue.authority.name) := OnDisk(queue.authority)]
      ensures queue.HoldsConfigs() && unchanged(queue.pluginConfigs.repr)
    {
      assert QueueAt(queue.name) && TreeAt(queue.name);
      var document := DictWithPlainSecrets(queue);
      files := files[FileName(queue.authority.name) := document];
    }

    static method DictWithPlainSecrets(queue: ManagedQueue) returns (document: Json)
      requires queue.HoldsConfigs() && IsPluginConfigs(queue.authority.configs)
      ensures document == OnDisk(queue.authority)
    {
      var plain := DictSecretsAsStr(queue.pluginConfigs, queue.authority.configs);
      var configs := ToJson(plain);
      document := ToDict(queue.authority.(configs := configs));
    }

    method CreateSchoolAuthority(document: Json) returns (response: Response)
      requires Valid() && NoSecrets(document)
      modifies this`byName, this`repr, this`files, inQueue, outQueues
      ensures Valid() && fresh(repr - old(repr)) && retired == old(retired)
      ensures (Value(), response) == Created(rules, old(Value()), document)
      ensures forall n :: n in old(byName) ==> n in byName && byName[n] == old(byName[n])
    {
      var parsed := Parse(rules.isUrl, document);
      if parsed == None {
        return Invalid;
      }
      ParsedIsWellFormed(rules.isUrl, document);
      var authority := parsed.value;
      var existing := Find(authority.name);
      if existing != null {
        return Exists;
      }
      Register(authority);
      response := Done;
    }

    method Register(authority: Config)
      requires Valid() && authority.name !in byName && WellFormed(rules.isUrl, authority)
      modifies this`byName, this`repr, this`files, inQueue, outQueues
      ensures Valid() && fresh(repr - old(repr)) && Value() == WithNew(old(Value()), authority)
      ensures forall n :: n in old(byName) ==> n in byName && byName[n] == old(byName[n])
    {
      ghost var before := Value();
      RegisterQueue(authority);
      ValueIs(WithNew(before, authority));
    }

    method RegisterQueue(authority: Config)
      requires Valid() && authority.name !in byName && WellFormed(rules.isUrl, authority)
      modifies this`byName, this`repr, this`files, inQueue, outQueues
      ensures Valid() && fresh(repr - old(repr))
      ensures files == old(files)[FileName(authority.name) := OnDisk(authority)]
      ensures byName.Keys == old(byName).Keys + {authority.name}
      ensures forall name :: name in byName ==>
        EntryAt(name) == if name == authority.name then Entry(authority, authority.active) else old(EntryAt(name))
      ensures forall n :: n in old(byName) ==> n in byName && byName[n] == old(byName[n])
    {
      var queue := new ManagedQueue(authority);
      AddQueue(queue);
      SaveAndStart(queue);
    }

    /** The last two steps of a create and of a patch request. */
    method SaveAndStart(queue: ManagedQueue)
      requires Valid() && queue.name in byName && byName[queue.name] == queue && !queue.Live()
      modifies this`files, this`repr, queue`task, queue`spawned
      ensures Valid() && fresh(repr - old(repr)) && byName == old(byName)
      ensures forall n :: n in byName && n != queue.name ==> EntryAt(n) == old(EntryAt(n))
      ensures EntryAt(queue.name) == Entry(queue.authority, queue.authority.active)
      ensures IsPluginConfigs(queue.authority.configs)
      ensures files == old(files)[FileName(queue.name) := OnDisk(queue.authority)]
      ensures old(queue.spawned) <= queue.spawned
    {
      assert QueueAt(queue.name);
      Save(queue);
      StartOutQueueTask(queue);
    }

    method AddQueue(queue: ManagedQueue)
      requires Valid() && queue.name !in byName && queue !in repr
      requires IsNew(queue, queue.name) && queue.HoldsConfigs() && WellFormed(rules.isUrl, queue.authority)
      requires queue.pluginConfigs in queue.pluginConfigs.repr && queue.pluginConfigs.repr !! repr
      modifies this`byName, this`repr, inQueue, outQueues
      ensures Valid() && repr == old(repr) + {queue} + queue.pluginConfigs.repr
      ensures byName == old(byName)[queue.name := queue] && files == old(files) && retired == old(retired)
      ensures forall name :: name in old(byName) ==> EntryAt(name) == old(EntryAt(name))
    {
      AppendToLists(queue);
      byName := byName[queue.name := queue];
      repr := repr + {queue} + queue.pluginConfigs.repr;
      NewIsAssembled(queue.name);
      KeepsListed();
      forall name | name in old(byName) ensures byName[name] in outQueues.items {
        assert old(QueueAt(name));
      }
    }

    /** Appending and sorting, and sharing the list if the in queue has an empty one. */
    method AppendToLists(queue: ManagedQueue)
      requires ListsAgree() && queue.name !in byName
      modifies inQueue, outQueues
      ensures SortedByName(outQueues.items) && inQueue.outQueues == outQueues
      ensures forall q :: q in outQueues.items <==> q == queue || q in old(outQueues.items)
    {
      outQueues.AppendAndSort(queue);
      if inQueue.outQueues.items == [] {
        inQueue.outQueues := outQueues;
      }
    }

    method DeleteSchoolAuthority(name: string) returns (response: Response)
      requires Valid()
      modifies this, repr
      ensures Valid() && fresh(repr - old(repr))
      ensures (Value(), response) == Deleted(rules, old(Value()), name)
      ensures retired == old(retired) + if name in old(byName) then {old(byName)[name]} else {}
      ensures forall t: Task | old(allocated(t)) :: old(t.closed) ==> t.closed
      ensures forall q: ManagedQueue | old(allocated(q)) :: old(q.spawned) <= q.spawned
      ensures byName == old(byName) - {name}
    {
      var queue := Find(name);
      if queue == null {
        return NoObject;
      }
      assert QueueAt(name);
      response := Unregister(queue);
      ValueIs(Deleted(rules, old(Value()), name).0);
    }

    method Unregister(queue: ManagedQueue) returns (response: Response)
      requires Valid() && queue.name in byName && byName[queue.name] == queue
      modifies this, outQueues, queue`deleted, queue.spawned
      ensures Valid() && repr == old(repr) && byName == old(byName) - {queue.name} && retired == old(retired) + {queue}
      ensures files == old(files) - {FileName(queue.name)}
      ensures forall n :: n in byName ==> EntryAt(n) == old(EntryAt(n))
      ensures response == if AllKnown(rules, old(queue.authority.plugins)) then Done else Failed
      ensures forall t: Task | old(allocated(t)) :: old(t.closed) ==> t.closed
      ensures forall q: ManagedQueue | old(allocated(q)) :: old(q.spawned) <= q.spawned
    {
      assert QueueAt(queue.name);
      var plugins := queue.authority.plugins;
      Retire(queue);
      RemoveFile(queue.name);
      var raised := DropHandlers(queue.name, plugins);
      response := if raised then Failed else Done;
    }

    method Retire(queue: ManagedQueue)
      requires Valid() && queue.name in byName && byName[queue.name] == queue
      modifies this`byName, this`retired, outQueues, queue`deleted, queue.spawned
      ensures Valid() && byName == old(byName) - {queue.name} && retired == old(retired) + {queue}
      ensures forall n :: n in byName ==> EntryAt(n) == old(EntryAt(n))
      ensures forall t: Task | old(allocated(t)) :: old(t.closed) ==> t.closed
    {
      assert QueueAt(queue.name);
      RemoveQueue(queue);
      forall n | n in byName ensures EntryAt(n) == old(EntryAt(n)) {
        assert old(QueueAt(n));
      }
      CloseQueue(queue);
    }

    method RemoveQueue(queue: ManagedQueue)
      requires Valid() && queue.name in byName && byName[queue.name] == queue
      modifies this`byName, outQueues
      ensures Valid() && byName == old(byName) - {queue.name} && repr == old(repr) && files == old(files)
    {
      assert QueueAt(queue.name);
      outQueues.Remove(queue);
      byName := byName - {queue.name};
      KeepsListed();
      forall n | n in byName ensures byName[n] in outQueues.items {
        assert old(QueueAt(n));
      }
    }

    method CloseQueue(queue: ManagedQueue)
      requires Valid() && queue.name !in byName && queue in repr && queue.Valid() && queue.spawned <= repr
      modifies this`retired, queue`deleted, queue.spawned
      ensures Valid() && retired == old(retired) + {queue}
      ensures forall name :: name in byName ==> EntryAt(name) == old(EntryAt(name))
      ensures forall t: Task | old(allocated(t)) :: old(t.closed) ==> t.closed
      ensures forall q: ManagedQueue | old(allocated(q)) :: old(q.spawned) <= q.spawned
    {
      queue.End();
      retired := retired + {queue};
      forall n | n in byName
        ensures byName[n] != queue && QueueAt(n) && EntryAt(n) == old(EntryAt(n))
      {
        assert old(QueueAt(n));
        assert unchanged(byName[n].spawned);
      }
      forall n | n in byName ensures TreeAt(n) {
        assert old(TreeAt(n));
      }
      forall q | q in old(retired) ensures RetiredAt(q) {
        assert old(RetiredAt(q));
        assert unchanged(q.spawned);
      }
      assert RetiredAt(queue);
    }

    method RemoveFile(name: string)
      requires Valid()
      modifies this`files
      ensures Valid() && files == old(files) - {FileName(name)}
    {
      files := files - {FileName(name)};
    }

    method PatchSchoolAuthority(name: string, document: Json) returns (response: Response)
      requires Valid() && NoSecrets(document)
      modifies this, repr
      ensures Valid() && fresh(repr - old(repr)) && retired == old(retired)
      ensures (Value(), response) == Changed(rules, old(Value()), name, document)
      ensures forall t: Task | old(allocated(t)) :: old(t.closed) ==> t.closed
      ensures forall q: ManagedQueue | old(allocated(q)) :: old(q.spawned) <= q.spawned
      ensures byName == old(byName)
    {
      var patch := ParsePatch(rules.isUrl, document);
      if patch == None {
        return Invalid;
      }
      var queue := Find(name);
      if queue == null {
        return NoObject;
      }
      assert QueueAt(name);
      ghost var before := Value();
      PatchedConfig(rules, before, name, document);
      assert Changed(rules, before, name, document) == Repatched(rules, before, name, patch.value);
      response := PatchFound(queue, patch.value);
    }

    method PatchFound(queue: ManagedQueue, patch: Patch) returns (response: Response)
      requires Valid() && queue.name in byName && byName[queue.name] == queue
      requires var after := Patched(rules.isUrl, Value().queues[queue.name].config, patch);
        after.Some? ==> after.value.name == queue.name && WellFormed(rules.isUrl, after.value)
      modifies this`files, this`repr, this`handlers, queue`authority, queue`pluginConfigs, queue`task, queue`spawned,
          queue.spawned
      ensures Valid() && fresh(repr - old(repr)) && retired == old(retired)
      ensures (Value(), response) == Repatched(rules, old(Value()), queue.name, patch)
      ensures forall t: Task | old(allocated(t)) :: old(t.closed) ==> t.closed
      ensures forall q: ManagedQueue | old(allocated(q)) :: old(q.spawned) <= q.spawned
      ensures byName == old(byName)
    {
      assert QueueAt(queue.name);
      ghost var before := Value();
      response := PatchQueue(queue, patch);
      ValueIsRepatched(before, queue.name, patch);
    }

    lemma ValueIsRepatched(before: Registry, name: string, patch: Patch)
      requires Valid() && before.queues.Keys == byName.Keys && name in byName
      requires var after := Patched(rules.isUrl, before.queues[name].config, patch);
        after.Some? ==> after.value.name == name && IsPluginConfigs(after.value.configs)
      requires forall n :: n in byName && n != name ==> EntryAt(n) == before.queues[n]
      requires var config := before.queues[name].config;
        if PatchResponse(rules, config, patch) != Done then EntryAt(name) == Entry(config, false) && files == before.files
        else
          var after := Patched(rules.isUrl, config, patch).value;
          EntryAt(name) == Entry(after, after.active) && files == before.files[FileName(name) := OnDisk(after)]
      ensures Value() == Repatched(rules, before, name, patch).0
    {
      ValueIs(Repatched(rules, before, name, patch).0);
    }

    method PatchQueue(queue: ManagedQueue, patch: Patch) returns (response: Response)
      requires Valid() && queue.name in byName && byName[queue.name] == queue
      requires var after := Patched(rules.isUrl, queue.authority, patch);
        after.Some? ==> after.value.name == queue.name && WellFormed(rules.isUrl, after.value)
      modifies this`files, this`repr, this`handlers, queue`authority, queue`pluginConfigs, queue`task, queue`spawned,
          queue.spawned
      ensures Valid() && fresh(repr - old(repr)) && retired == old(retired) && byName == old(byName)
      ensures forall n :: n in byName && n != queue.name ==> EntryAt(n) == old(EntryAt(n))
      ensures response == PatchResponse(rules, old(queue.authority), patch)
      ensures response != Done ==>
        && EntryAt(queue.name) == Entry(old(queue.authority), false) && files == old(files)
      ensures response == Done ==>
        && var after := Patched(rules.isUrl, old(queue.authority), patch);
        && after.Some? && IsPluginConfigs(after.value.configs)
        && EntryAt(queue.name) == Entry(after.value, after.value.active)
        && files == old(files)[FileName(queue.name) := OnDisk(after.value)]
      ensures forall t: Task | old(allocated(t)) :: old(t.closed) ==> t.closed
      ensures forall q: ManagedQueue | old(allocated(q)) :: old(q.spawned) <= q.spawned
    {
      assert QueueAt(queue.name);
      StopQueue(queue);
      response := PatchStopped(queue, patch);
    }

    method PatchStopped(queue: ManagedQueue, patch: Patch) returns (response: Response)
      requires Valid() && queue.name in byName && byName[queue.name] == queue && !queue.Live()
      requires var after := Patched(rules.isUrl, queue.authority, patch);
        after.Some? ==> after.value.name == queue.name && WellFormed(rules.isUrl, after.value)
      modifies this`files, this`repr, this`handlers, queue`authority, queue`pluginConfigs, queue`task, queue`spawned
      ensures Valid() && fresh(repr - old(repr)) && retired == old(retired) && byName == old(byName)
      ensures forall n :: n in byName && n != queue.name ==> EntryAt(n) == old(EntryAt(n))
      ensures response == PatchResponse(rules, old(queue.authority), patch)
      ensures response != Done ==>
        && EntryAt(queue.name) == Entry(old(queue.authority), false) && files == old(files)
      ensures response == Done ==>
        && var after := Patched(rules.isUrl, old(queue.authority), patch);
        && after.Some? && IsPluginConfigs(after.value.configs)
        && EntryAt(queue.name) == Entry(after.value, after.value.active)
        && files == old(files)[FileName(queue.name) := OnDisk(after.value)]
      ensures old(queue.spawned) <= queue.spawned
    {
      assert QueueAt(queue.name);
      var after;
      response, after := ParsePatched(queue.authority, patch);
      if response == Done {
        UseAuthority(queue, after.value);
      }
    }

    /** The patched configuration, with the handlers of the authority dropped. */
    method ParsePatched(authority: Config, patch: Patch) returns (response: Response, after: Option<Config>)
      requires Valid()
      modifies this`handlers
      ensures Valid() && response == PatchResponse(rules, authority, patch)
      ensures response == Done ==> after.Some? && after == Patched(rules.isUrl, authority, patch)
    {
      var raised, document := MergePatch(authority, patch);
      if raised {
        return Failed, None;
      }
      raised := DropHandlers(authority.name, authority.plugins);
      if raised {
        return Failed, None;
      }
      after := Parse(rules.isUrl, document);
      response := if after == None then Invalid else Done;
    }

    /** The configuration as a dictionary, updated in place with the patch. */
    static method MergePatch(authority: Config, patch: Patch) returns (raised: bool, document: Json)
      ensures raised <==> !Mergeable(ToDict(authority), PatchDict(patch))
      ensures !raised ==> document == Merged(ToDict(authority), PatchDict(patch), false)
    {
      ghost var o, u := ToDict(authority), PatchDict(patch);
      var oldData := FromJson(ToDict(authority));
      var patchData := FromJson(PatchDict(patch));
      raised := RecursiveDictUpdate(oldData, patchData, false, o, u);
      document := ToJson(oldData);
    }

    method UseAuthority(queue: ManagedQueue, authority: Config)
      requires Valid() && queue.name in byName && byName[queue.name] == queue && !queue.Live()
      requires authority.name == queue.name && WellFormed(rules.isUrl, authority)
      modifies this`files, this`repr, queue`authority, queue`pluginConfigs, queue`task, queue`spawned
      ensures Valid() && fresh(repr - old(repr)) && retired == old(retired) && byName == old(byName)
      ensures forall n :: n in byName && n != queue.name ==> EntryAt(n) == old(EntryAt(n))
      ensures EntryAt(queue.name) == Entry(authority, authority.active)
      ensures files == old(files)[FileName(queue.name) := OnDisk(authority)]
      ensures old(queue.spawned) <= queue.spawned
    {
      SetAuthority(queue, authority);
      SaveAndStart(queue);
    }

    method HandleRequest(request: Request) returns (response: Response)
      requires Valid() && IsRequest(request)
      modifies this, repr
      ensures Valid() && fresh(repr - old(repr))
      ensures (Value(), response) == Step(rules, old(Value()), request)
      ensures retired == old(retired) +
        if request.Delete? && request.name in old(byName) then {old(byName)[request.name]} else {}
      ensures forall t: Task | old(allocated(t)) :: old(t.closed) ==> t.closed
      ensures forall q: ManagedQueue | old(allocated(q)) :: old(q.spawned) <= q.spawned
      ensures old(Known()) <= Known() && forall q :: q in Known() ==> OnlyCurrentRuns(q)
    {
      match request {
        case Create(document) => response := CreateSchoolAuthority(document);
        case Delete(name) => response := DeleteSchoolAuthority(name);
        case Change(name, document) => response := PatchSchoolAuthority(name, document);
      }
      forall n | n in old(byName) ensures old(byName[n]) in Known() {
        assert (n in byName && byName[n] == old(byName[n])) || old(byName[n]) in retired;
      }
      forall q | q in Known() ensures OnlyCurrentRuns(q) {
        RunningTaskIsCurrent(q);
      }
    }

    /** The server handles one request after the other. */
    method SimpleRpcServer(requests: seq<Request>) returns (responses: seq<Response>)
      requires Valid() && AreRequests(requests)
      modifies this, repr
      ensures Valid() && fresh(repr - old(repr)) && |responses| == |requests|
      ensures Value() == Served(rules, old(Value()), requests)
      ensures forall i :: 0 <= i < |requests| ==> responses[i] == Reply(rules, old(Value()), requests, i)
      ensures old(retired) <= retired
      ensures forall t: Task | old(allocated(t)) :: old(t.closed) ==> t.closed
      ensures forall q: ManagedQueue | old(allocated(q)) :: old(q.spawned) <= q.spawned
      ensures old(Known()) <= Known() && forall q :: q in Known() ==> OnlyCurrentRuns(q)
    {
      ghost var start := Value();
      responses := [];
      for i := 0 to |requests|
        invariant Valid() && fresh(repr - old(repr)) && |responses| == i
        invariant Value() == Served(rules, start, requests[..i])
        invariant old(retired) <= retired && old(Known()) <= Known()
        invariant forall j :: 0 <= j < i ==> responses[j] == Reply(rules, start, requests, j)
        invariant forall t: Task | old(allocated(t)) :: old(t.closed) ==> t.closed
        invariant forall q: ManagedQueue | old(allocated(q)) :: old(q.spawned) <= q.spawned
      {
        assert requests[..i + 1][..i] == requests[..i];
        var response := HandleRequest(requests[i]);
        responses := responses + [response];
      }
      assert requests[..|requests|] == requests;
      forall q | q in Known() ensures OnlyCurrentRuns(q) {
        RunningTaskIsCurrent(q);
      }
    }

    /** Whether it is one list or there are two, the in queue and the server always know the same
        queues: one for each authority of the registry, sorted by name. */
    lemma ListsAreEqual()
      requires Valid()
      ensures inQueue.outQueues.items == outQueues.items
      ensures QueueNames(outQueues.items) == SortedNames(Value().queues.Keys)
      ensures forall q :: q in outQueues.items ==> q.name in Value().queues && q.authority == Value().queues[q.name].config
    {
      var items := outQueues.items;
      var names := QueueNames(items);
      forall name ensures name in names <==> name in byName {
        if name in byName {
          assert QueueAt(name);
          var i :| 0 <= i < |items| && items[i] == byName[name];
          assert names[i] == name;
        }
        if name in names {
          var i :| 0 <= i < |names| && names[i] == name;
          assert items[i] in items;
        }
      }
      SortedNamesUnique(Value().queues.Keys, names);
    }

    /** The queues that are registered or were deleted: requests only add to them. */
    ghost function Known(): set<ManagedQueue>
      reads this`byName, this`retired
    {
      byName.Values + retired
    }

    /** Of all tasks ever started for the queue, one that is running is its current one, and then
        the queue is registered, active and not deleted. */
    ghost predicate OnlyCurrentRuns(queue: ManagedQueue)
      reads this`byName, this`retired, queue, queue.spawned
    {
      forall t :: t in queue.spawned && !t.closed ==>
        && queue.name in byName && byName[queue.name] == queue && queue !in retired
        && !queue.deleted && queue.authority.active && queue.task == t
    }

    lemma RunningTaskIsCurrent(queue: ManagedQueue)
      requires Valid() && queue in Known()
      ensures OnlyCurrentRuns(queue)
      ensures queue in retired ==> queue.deleted && !queue.Live() && queue !in byName.Values
    {
      if queue in retired {
        assert RetiredAt(queue);
      }
      forall name | name in byName ensures QueueAt(name) {}
    }

    lemma LiveHasTask(name: string)
      requires Valid() && name in byName
      ensures Value().queues[name].live <==> exists t :: t in byName[name].spawned && !t.closed
    {
      assert QueueAt(name);
    }
  }

  function QueueNames(items: seq<ManagedQueue>): seq<string> {
    seq(|items|, i requires 0 <= i < |items| => items[i].name)
  }
}
